/**
 * `encode_object_path` of src/daemon/usound/main.c and
 * src/daemon/soundmon/main.c: turn a device's object path into one made only
 * of the characters a D-Bus object path allows, by overwriting every other
 * character with '_' in place.
 */
module ObjectPath {

  /** The characters the encoder keeps: `[A-Za-z0-9_/]`. */
  predicate Allowed(c: char) {
    c == '_' || ('A' <= c <= 'Z') || ('a' <= c <= 'z') || ('0' <= c <= '9') || c == '/'
  }

  function EncodeChar(c: char): char {
    if Allowed(c) then c else '_'
  }

  /** The encoding of a whole path, character by character. */
  function Encoded(s: seq<char>): (r: seq<char>)
    ensures |r| == |s|
  {
    seq(|s|, i requires 0 <= i < |s| => EncodeChar(s[i]))
  }

  predicate AllAllowed(s: seq<char>) {
    forall i :: 0 <= i < |s| ==> Allowed(s[i])
  }

  /** The result only holds allowed characters, and only the disallowed ones were changed, each into '_'. */
  lemma EncodedAllowed(s: seq<char>)
    ensures AllAllowed(Encoded(s))
    ensures forall i :: 0 <= i < |s| ==> (Encoded(s)[i] == s[i] <==> Allowed(s[i]))
    ensures forall i :: 0 <= i < |s| && !Allowed(s[i]) ==> Encoded(s)[i] == '_'
  {
  }

  /** A path is left as it is exactly when it is already made of allowed characters. */
  lemma EncodedFixedPoints(s: seq<char>)
    ensures Encoded(s) == s <==> AllAllowed(s)
  {
    if Encoded(s) == s {
      forall i | 0 <= i < |s| ensures Allowed(s[i]) {
        assert Encoded(s)[i] == s[i];
      }
    }
  }

  /** Encoding twice is encoding once. */
  lemma EncodedIdempotent(s: seq<char>)
    ensures Encoded(Encoded(s)) == Encoded(s)
  {
    EncodedAllowed(s);
    EncodedFixedPoints(Encoded(s));
  }

  /** The encoding works character by character, so it distributes over concatenation. */
  lemma EncodedConcat(a: seq<char>, b: seq<char>)
    ensures Encoded(a + b) == Encoded(a) + Encoded(b)
  {
  }

  /** The path a device is exported under: the daemon's path, "/devices/", then the node name. */
  function DevicePath(base: string, name: string): (p: string)
    ensures |p| == |base| + 9 + |name|
  {
    Encoded(base + "/devices/" + name)
  }

  /**
   * When the daemon's own path is already allowed, the exported path starts
   * with it and with "/devices/", and only the name is rewritten, slashes
   * inside the name included.
   */
  lemma DevicePathKeepsPrefix(base: string, name: string)
    requires AllAllowed(base)
    ensures DevicePath(base, name) == base + "/devices/" + Encoded(name)
    ensures AllAllowed(DevicePath(base, name))
  {
    EncodedConcat(base + "/devices/", name);
    EncodedConcat(base, "/devices/");
    EncodedFixedPoints(base);
    EncodedFixedPoints("/devices/");
    EncodedAllowed(base + "/devices/" + name);
  }

  /** No two consecutive slashes. */
  predicate NoDoubleSlash(s: seq<char>) {
    forall i :: 0 <= i < |s| - 1 ==> !(s[i] == '/' && s[i + 1] == '/')
  }

  /**
   * A D-Bus object path: a '/' followed by non-empty elements of
   * `[A-Za-z0-9_]` separated by single slashes, with no trailing slash except
   * in the root path "/".
   */
  predicate ValidObjectPath(p: seq<char>) {
    && |p| >= 1 && p[0] == '/' && AllAllowed(p)
    && (p == "/" || (p[|p| - 1] != '/' && NoDoubleSlash(p)))
  }

  /** A node name that makes a valid path element sequence once appended after a slash. */
  predicate ValidElements(name: seq<char>) {
    && name != [] && name[0] != '/' && name[|name| - 1] != '/'
    && NoDoubleSlash(name)
  }

  /** The encoding keeps exactly the slashes of its input, where they were. */
  lemma EncodedSlashes(s: seq<char>)
    ensures forall i :: 0 <= i < |s| ==> (Encoded(s)[i] == '/' <==> s[i] == '/')
  {
  }

  /** A "//" in a concatenation lies in one part or across the seam. */
  lemma NoDoubleSlashConcat(x: seq<char>, y: seq<char>)
    requires x != []
    ensures NoDoubleSlash(x + y) <==>
      NoDoubleSlash(x) && NoDoubleSlash(y) && (y == [] || !(x[|x| - 1] == '/' && y[0] == '/'))
  {
    var xy := x + y;
    if NoDoubleSlash(xy) {
      forall i | 0 <= i < |x| - 1 ensures !(x[i] == '/' && x[i + 1] == '/') {
        assert xy[i] == x[i] && xy[i + 1] == x[i + 1];
      }
      forall i | 0 <= i < |y| - 1 ensures !(y[i] == '/' && y[i + 1] == '/') {
        assert xy[|x| + i] == y[i] && xy[|x| + i + 1] == y[i + 1];
      }
      if y != [] {
        assert xy[|x| - 1] == x[|x| - 1] && xy[|x|] == y[0];
      }
    }
  }

  /** The encoding neither adds nor removes a "//". */
  lemma NoDoubleSlashEncoded(s: seq<char>)
    ensures NoDoubleSlash(Encoded(s)) <==> NoDoubleSlash(s)
  {
    EncodedSlashes(s);
  }

  /**
   * Under a daemon path that is itself a valid path other than the root, the
   * exported path is a valid object path exactly when the node name is
   * non-empty, neither starts nor ends with '/', and holds no "//"; an empty
   * name leaves a trailing slash, and a slash at either end of the name or
   * doubled inside it leaves an empty element.
   */
  lemma DevicePathValid(base: string, name: string)
    requires ValidObjectPath(base) && base != "/"
    ensures ValidObjectPath(DevicePath(base, name)) <==> ValidElements(name)
  {
    DevicePathKeepsPrefix(base, name);
    EncodedSlashes(name);
    NoDoubleSlashEncoded(name);
    var e := Encoded(name);
    var q := base + "/devices/";
    assert NoDoubleSlash("/devices/");
    NoDoubleSlashConcat(base, "/devices/");
    NoDoubleSlashConcat(q, e);
    var p := q + e;
    assert p == DevicePath(base, name);
    assert p[0] == base[0];
    if e == [] {
      assert p[|p| - 1] == '/';
    } else {
      assert p[|p| - 1] == e[|e| - 1];
    }
  }

  /** Two names that differ only in disallowed characters get the same path. */
  lemma DistinctNamesMayCollide(base: string)
    requires AllAllowed(base)
    ensures "alsa.out" != "alsa-out" && DevicePath(base, "alsa.out") == DevicePath(base, "alsa-out")
  {
    DevicePathKeepsPrefix(base, "alsa.out");
    DevicePathKeepsPrefix(base, "alsa-out");
  }

  /** The index of the terminating NUL of a C string held in `s`. */
  function NulIndex(s: seq<char>): (n: nat)
    requires '\0' in s
    ensures n < |s| && s[n] == '\0' && '\0' !in s[..n]
  {
    if s[0] == '\0' then 0
    else
      assert '\0' in s[1..] by {
        var k :| 0 <= k < |s| && s[k] == '\0';
        assert s[1..][k - 1] == '\0';
      }
      var m := NulIndex(s[1..]);
      assert s[..m + 1] == [s[0]] + s[1..][..m];
      m + 1
  }

  /**
   * encode_object_path: walk the buffer up to its NUL, replacing each
   * disallowed character with '_'; the NUL and what follows it are untouched.
   */
  method EncodeObjectPath(path: array<char>)
    requires '\0' in path[..]
    modifies path
    ensures var n := NulIndex(old(path[..]));
      path[..n] == Encoded(old(path[..n])) && path[n..] == old(path[n..])
  {
    ghost var n := NulIndex(path[..]);
    ghost var s0 := path[..];
    var i := 0;
    while path[i] != '\0'
      invariant 0 <= i <= n
      invariant path[..i] == Encoded(s0[..i])
      invariant path[i..] == s0[i..]
      decreases n - i
    {
      assert path[i] == s0[i] && i < n;
      if !Allowed(path[i]) {
        path[i] := '_';
      }
      assert path[..i + 1] == path[..i] + [path[i]];
      assert s0[..i + 1] == s0[..i] + [s0[i]];
      i := i + 1;
    }
    assert path[i] == s0[i];
  }
}
