/** Directory names for working directories: percent-encoding (sections 2.1 and 2.3 of RFC 3986)
    when short enough, a slug and a hash otherwise, and the way back. */
module CwdNames {
  import opened Wrappers

  type Byte = b: int | 0 <= b < 256

  /** Text as its UTF-8 bytes. */
  type Str = seq<Byte>

  const PERCENT: Byte := 37
  const DASH: Byte := 45
  const SLASH: Byte := 47
  const COLON: Byte := 58
  const SPACE: Byte := 32
  const MAX_DIRNAME_BYTES: nat := 255

  /** What the code gets from elsewhere: the first sixteen hex digits of the hash, the lowercased
      last path component as code points (or `workspace`), UTF-8 validity, trimming, and whether it
      is built for Windows. */
  datatype Env = Env(
    hash16: Str -> Str,
    leaf: Str -> seq<nat>,
    utf8: Str -> bool,
    trim: Str -> Str,
    windows: bool)

  predicate IsAlphanumeric(c: int) {
    48 <= c <= 57 || 65 <= c <= 90 || 97 <= c <= 122
  }

  predicate IsUnreserved(b: Byte) {
    IsAlphanumeric(b) || b == DASH || b == 46 || b == 95 || b == 126
  }

  function HexDigit(n: int): Byte
    requires 0 <= n < 16
  {
    if n < 10 then 48 + n else 55 + n
  }

  function FromHexDigit(b: Byte): Option<int> {
    if 48 <= b <= 57 then Some(b - 48)
    else if 65 <= b <= 70 then Some(b - 55)
    else if 97 <= b <= 102 then Some(b - 87)
    else None
  }

  function EncodeByte(b: Byte): Str {
    if IsUnreserved(b) then [b] else [PERCENT, HexDigit(b / 16), HexDigit(b % 16)]
  }

  function UrlEncode(s: Str): Str {
    if s == [] then [] else EncodeByte(s[0]) + UrlEncode(s[1..])
  }

  function UrlDecode(s: Str): Str {
    if s == [] then []
    else if s[0] == PERCENT && |s| >= 3 && FromHexDigit(s[1]).Some? && FromHexDigit(s[2]).Some? then
      var hi, lo := FromHexDigit(s[1]).value, FromHexDigit(s[2]).value;
      [16 * hi + lo] + UrlDecode(s[3..])
    else [s[0]] + UrlDecode(s[1..])
  }

  lemma {:induction false} UrlRoundTrip(s: Str)
    ensures UrlDecode(UrlEncode(s)) == s
  {
    if s != [] {
      UrlRoundTrip(s[1..]);
      var e, rest := EncodeByte(s[0]), UrlEncode(s[1..]);
      assert (e + rest)[|e|..] == rest;
      if !IsUnreserved(s[0]) {
        HexRoundTrip(s[0]);
        assert (e + rest)[..3] == e;
      }
    }
  }

  lemma HexRoundTrip(b: Byte)
    ensures FromHexDigit(HexDigit(b / 16)) == Some(b / 16)
    ensures FromHexDigit(HexDigit(b % 16)) == Some(b % 16)
    ensures 16 * (b / 16) + b % 16 == b
  {
  }

  /** Letters, digits and the four marks stand for themselves; any other byte is written as a percent
      sign and its two digits in upper-case hexadecimal. Texts are encoded byte by byte. */
  lemma EncodedByte(b: Byte)
    ensures (48 <= b <= 57 || 65 <= b <= 90 || 97 <= b <= 122 || b == 45 || b == 46 || b == 95 || b == 126) ==>
      UrlEncode([b]) == [b]
    ensures !(48 <= b <= 57 || 65 <= b <= 90 || 97 <= b <= 122 || b == 45 || b == 46 || b == 95 || b == 126) ==>
      exists hi, lo ::
        && UrlEncode([b]) == [37, hi, lo]
        && (48 <= hi <= 57 || 65 <= hi <= 70) && (48 <= lo <= 57 || 65 <= lo <= 70)
        && b == 16 * (if hi <= 57 then hi - 48 else hi - 55) + (if lo <= 57 then lo - 48 else lo - 55)
  {
    assert UrlEncode([b]) == EncodeByte(b) + UrlEncode([b][1..]) == EncodeByte(b);
    HexRoundTrip(b);
    if !IsUnreserved(b) {
      var hi, lo := HexDigit(b / 16), HexDigit(b % 16);
      assert UrlEncode([b]) == [37, hi, lo];
    }
  }

  lemma {:induction false} EncodesByteByByte(a: Str, b: Str)
    ensures UrlEncode(a + b) == UrlEncode(a) + UrlEncode(b)
    decreases |a|
  {
    if a == [] {
      assert a + b == b;
    } else {
      assert (a + b)[1..] == a[1..] + b;
      EncodesByteByByte(a[1..], b);
    }
  }

  lemma {:induction false} PlainDecodesToItself(s: Str)
    requires PERCENT !in s
    ensures UrlDecode(s) == s
  {
    if s != [] {
      PlainDecodesToItself(s[1..]);
    }
  }

  // ---------------------------------------------------------------- slugs

  /** Alphanumerics kept, each run of anything else turned into one dash. */
  function Collapse(input: seq<nat>): Str {
    if input == [] then []
    else
      var n := |input| - 1;
      var front := Collapse(input[..n]);
      if IsAlphanumeric(input[n]) then front + [input[n]]
      else if n > 0 && !IsAlphanumeric(input[n - 1]) then front
      else front + [DASH]
  }

  function TrimDashesEnd(s: Str): Str {
    if s != [] && s[|s| - 1] == DASH then TrimDashesEnd(s[..|s| - 1]) else s
  }

  function TrimDashes(s: Str): Str {
    if s != [] && s[0] == DASH then TrimDashes(s[1..]) else TrimDashesEnd(s)
  }

  function Take(s: Str, n: nat): Str {
    if |s| <= n then s else s[..n]
  }

  method Slugify(input: seq<nat>, maxLen: nat) returns (slug: Str)
    ensures slug == Take(TrimDashes(Collapse(input)), maxLen)
  {
    var result: Str := [];
    var prevDash := false;
    for i := 0 to |input|
      invariant result == Collapse(input[..i])
      invariant prevDash <==> i > 0 && !IsAlphanumeric(input[i - 1])
    {
      assert input[..i + 1][..i] == input[..i];
      var c := input[i];
      if IsAlphanumeric(c) {
        result := result + [c];
        prevDash := false;
      } else if !prevDash {
        result := result + [DASH];
        prevDash := true;
      }
    }
    assert input[..|input|] == input;
    slug := Take(TrimDashes(result), maxLen);
  }

  predicate SlugByte(b: Byte) {
    IsAlphanumeric(b) || b == DASH
  }

  lemma {:induction false} CollapseBytes(input: seq<nat>)
    ensures forall b :: b in Collapse(input) ==> SlugByte(b)
  {
    if input != [] {
      CollapseBytes(input[..|input| - 1]);
    }
  }

  function Alphanumerics(s: seq<nat>): seq<nat> {
    if s == [] then []
    else Alphanumerics(s[..|s| - 1]) + if IsAlphanumeric(s[|s| - 1]) then [s[|s| - 1]] else []
  }

  /** Collapsing keeps every letter and digit, in order, leaves no two dashes together, and ends in
      a dash exactly when the input ends in something else. */
  lemma {:induction false} CollapseExact(input: seq<nat>)
    ensures Alphanumerics(Collapse(input)) == Alphanumerics(input)
    ensures forall i :: 0 <= i < |Collapse(input)| - 1 ==>
      Collapse(input)[i] != DASH || Collapse(input)[i + 1] != DASH
    ensures input != [] ==>
      Collapse(input) != []
      && (Collapse(input)[|Collapse(input)| - 1] == DASH <==> !IsAlphanumeric(input[|input| - 1]))
  {
    CollapseKeeps(input);
    if input != [] {
      var n := |input| - 1;
      CollapseExact(input[..n]);
      assert n > 0 ==> input[..n][n - 1] == input[n - 1];
      hide Alphanumerics;
    }
  }

  lemma {:induction false} CollapseKeeps(input: seq<nat>)
    ensures Alphanumerics(Collapse(input)) == Alphanumerics(input)
  {
    if input != [] {
      var n := |input| - 1;
      CollapseKeeps(input[..n]);
      OneMoreByte(Collapse(input[..n]), input[n]);
      OneMoreByte(Collapse(input[..n]), DASH);
    }
  }

  lemma OneMoreByte(s: seq<nat>, c: nat)
    ensures Alphanumerics(s + [c]) == Alphanumerics(s) + if IsAlphanumeric(c) then [c] else []
  {
    assert (s + [c])[..|s|] == s;
  }

  lemma {:induction false} TrimDashesEndBytes(s: Str)
    ensures TrimDashesEnd(s) <= s
    ensures TrimDashesEnd(s) != [] ==> TrimDashesEnd(s)[|TrimDashesEnd(s)| - 1] != DASH
    ensures forall b :: b in TrimDashesEnd(s) ==> b in s
  {
    if s != [] && s[|s| - 1] == DASH {
      TrimDashesEndBytes(s[..|s| - 1]);
    }
  }

  lemma {:induction false} TrimDashesBytes(s: Str)
    ensures forall b :: b in TrimDashes(s) ==> b in s
    ensures TrimDashes(s) != [] ==> TrimDashes(s)[0] != DASH && TrimDashes(s)[|TrimDashes(s)| - 1] != DASH
  {
    if s != [] && s[0] == DASH {
      TrimDashesBytes(s[1..]);
    } else {
      TrimDashesEndBytes(s);
    }
  }

  predicate Dashes(s: Str) {
    forall i :: 0 <= i < |s| ==> s[i] == 45
  }

  lemma {:induction false} TrimDashesEndCuts(s: Str)
    ensures TrimDashesEnd(s) <= s && Dashes(s[|TrimDashesEnd(s)|..])
  {
    if s != [] && s[|s| - 1] == DASH {
      TrimDashesEndCuts(s[..|s| - 1]);
    }
  }

  lemma {:induction false} TrimDashesCuts(s: Str) returns (front: Str, back: Str)
    ensures s == front + TrimDashes(s) + back && Dashes(front) && Dashes(back)
  {
    if s != [] && s[0] == DASH {
      front, back := TrimDashesCuts(s[1..]);
      front := [s[0]] + front;
    } else {
      TrimDashesEndCuts(s);
      front, back := [], s[|TrimDashesEnd(s)|..];
    }
  }

  /** A slug is the beginning of what is left of the collapsed text once the dashes at both ends are
      cut, and all of it if that is short enough. */
  lemma SlugExactly(input: seq<nat>, n: nat) returns (front: Str, core: Str, back: Str)
    ensures Collapse(input) == front + core + back && Dashes(front) && Dashes(back)
    ensures core != [] ==> core[0] != 45 && core[|core| - 1] != 45
    ensures Take(TrimDashes(Collapse(input)), n) == if |core| <= n then core else core[..n]
  {
    core := TrimDashes(Collapse(input));
    TrimDashesBytes(Collapse(input));
    front, back := TrimDashesCuts(Collapse(input));
  }

  /** A slug is short, holds only letters, digits and dashes, starts with a letter or digit, and
      ends with one unless it was cut. */
  lemma SlugShape(input: seq<nat>, n: nat)
    ensures
      var slug := Take(TrimDashes(Collapse(input)), n);
      && |slug| <= n
      && (forall b :: b in slug ==> SlugByte(b))
      && (slug != [] ==> IsAlphanumeric(slug[0]))
      && (0 < |slug| < n ==> IsAlphanumeric(slug[|slug| - 1]))
  {
    CollapseBytes(input);
    TrimDashesBytes(Collapse(input));
    var t := TrimDashes(Collapse(input));
    assert forall b :: b in t ==> SlugByte(b);
    assert forall b :: b in Take(t, n) ==> b in t;
    assert t != [] ==> t[0] in t && t[|t| - 1] in t;
  }

  // ---------------------------------------------------------------- names

  /** `workspace`. */
  const WORKSPACE: Str := [119, 111, 114, 107, 115, 112, 97, 99, 101]

  function HashedName(env: Env, cwd: Str): Str {
    var slug := Take(TrimDashes(Collapse(env.leaf(cwd))), 40);
    (if slug == [] then WORKSPACE else slug) + [DASH] + env.hash16(cwd)
  }

  predicate IsShort(cwd: Str) {
    |UrlEncode(cwd)| <= MAX_DIRNAME_BYTES
  }

  function DirName(env: Env, cwd: Str): Str {
    if IsShort(cwd) then UrlEncode(cwd) else HashedName(env, cwd)
  }

  method EncodeCwdDirname(env: Env, cwd: Str) returns (name: Str)
    ensures name == DirName(env, cwd)
  {
    var urlEncoded := UrlEncode(cwd);
    if |urlEncoded| <= MAX_DIRNAME_BYTES {
      return urlEncoded;
    }
    var slug := Slugify(env.leaf(cwd), 40);
    if slug == [] {
      slug := WORKSPACE;
    }
    name := slug + [DASH] + env.hash16(cwd);
  }

  /** Hashes are sixteen hex digits, and trimming does not lengthen. */
  ghost predicate Sane(env: Env) {
    && (forall s :: |env.hash16(s)| == 16 && forall b :: b in env.hash16(s) ==> FromHexDigit(b).Some?)
    && (forall s :: |env.trim(s)| <= |s|)
  }

  lemma HashedNameShape(env: Env, cwd: Str)
    requires Sane(env)
    ensures |HashedName(env, cwd)| <= 57
    ensures PERCENT !in HashedName(env, cwd) && COLON !in HashedName(env, cwd)
    ensures HashedName(env, cwd)[0] != SLASH
  {
    SlugShape(env.leaf(cwd), 40);
    var slug := Take(TrimDashes(Collapse(env.leaf(cwd))), 40);
    var head := if slug == [] then WORKSPACE else slug;
    assert forall b :: b in WORKSPACE ==> IsAlphanumeric(b);
    assert forall b :: b in head ==> SlugByte(b);
    assert IsAlphanumeric(head[0]);
    assert HashedName(env, cwd)[0] == head[0];
  }

  /** A hashed name is the slug of the last path component, or `workspace` for want of one, a dash and
      the hash of the whole path. */
  lemma HashedNameParts(env: Env, cwd: Str)
    requires Sane(env)
    ensures
      var name := HashedName(env, cwd);
      var head := |name| - 17;
      && head > 0 && name[head] == 45 && name[head + 1..] == env.hash16(cwd)
      && (var slug := Take(TrimDashes(Collapse(env.leaf(cwd))), 40);
          if slug == [] then name[..head] == [119, 111, 114, 107, 115, 112, 97, 99, 101] else name[..head] == slug)
  {
  }

  /** Two long directories whose hashes differ never share a name. */
  lemma HashedNamesDiffer(env: Env, a: Str, b: Str)
    requires Sane(env) && !IsShort(a) && !IsShort(b)
    requires env.hash16(a) != env.hash16(b)
    ensures DirName(env, a) != DirName(env, b)
  {
    HashedNameParts(env, a);
    HashedNameParts(env, b);
  }

  /** Every name fits into one directory entry. */
  lemma NameFits(env: Env, cwd: Str)
    requires Sane(env)
    ensures |DirName(env, cwd)| <= MAX_DIRNAME_BYTES
    ensures !IsShort(cwd) ==> |DirName(env, cwd)| <= 57
  {
  }

  /** Different directories with short names get different names. */
  lemma ShortNamesDiffer(env: Env, a: Str, b: Str)
    requires IsShort(a) && IsShort(b) && DirName(env, a) == DirName(env, b)
    ensures a == b
  {
    UrlRoundTrip(a);
    UrlRoundTrip(b);
  }

  /** A short name of an absolute Unix path is never a hashed name of another directory. */
  lemma ShortAndHashedDiffer(env: Env, a: Str, b: Str)
    requires Sane(env)
    requires IsShort(a) && a != [] && a[0] == SLASH && !IsShort(b)
    ensures DirName(env, a) != DirName(env, b)
  {
    HashedNameShape(env, b);
    assert UrlEncode(a)[0] == PERCENT;
  }

  // ---------------------------------------------------------------- on disk

  /** Bytes of the UTF-8 encoding that starts with `lead`. */
  function CharBytes(lead: Byte): nat {
    if lead < 0x80 then 1 else if lead < 0xE0 then 2 else if lead < 0xF0 then 3 else 4
  }

  /** Starts with a slash or, on Windows, has a colon as its second character. */
  predicate LooksAbsolute(env: Env, s: Str) {
    s != [] &&
    (|| s[0] == SLASH
     || (env.windows && |s| > CharBytes(s[0]) && s[CharBytes(s[0])] == COLON))
  }

  predicate Continues(b: Byte) {
    0x80 <= b < 0xC0
  }

  /** The text starts with a whole character, of one to four bytes, as UTF-8 text does (section 3 of
      RFC 3629). */
  ghost predicate StartsWhole(s: Str) {
    s != [] && exists n ::
      && 1 <= n <= 4 && n <= |s|
      && (n == 1 ==> s[0] < 0x80)
      && (n == 2 ==> 0xC0 <= s[0] < 0xE0)
      && (n == 3 ==> 0xE0 <= s[0] < 0xF0)
      && (n == 4 ==> 0xF0 <= s[0])
      && (forall i :: 1 <= i < n ==> Continues(s[i]))
      && (n < |s| ==> !Continues(s[n]))
  }

  /** A text looks absolute if it starts with a slash or, on Windows, if a colon follows directly on its
      first character. */
  lemma AbsoluteIff(env: Env, s: Str)
    requires StartsWhole(s)
    ensures LooksAbsolute(env, s) <==>
      || s[0] == 47
      || (env.windows && exists n :: 0 < n < |s| && s[n] == 58 && forall i :: 0 < i < n ==> Continues(s[i]))
  {
    var n := CharBytes(s[0]);
    var k :| 1 <= k <= 4 && k <= |s| && (k == 1 ==> s[0] < 0x80) && (k == 2 ==> 0xC0 <= s[0] < 0xE0)
             && (k == 3 ==> 0xE0 <= s[0] < 0xF0) && (k == 4 ==> 0xF0 <= s[0])
             && (forall i :: 1 <= i < k ==> Continues(s[i])) && (k < |s| ==> !Continues(s[k]));
    assert n < |s| ==> !Continues(s[n]);
    if m :| 0 < m < |s| && s[m] == 58 && forall i :: 0 < i < m ==> Continues(s[i]) {
      assert m < n ==> Continues(s[m]);
    }
  }

  /** What goes wrong on disk: the directory or the record cannot be created, or writing the record
      stops after some bytes. */
  datatype Faults = Faults(createDir: bool, createFile: bool, stopsAfter: Option<nat>)

  datatype Failure = DirFailed | RecordFailed | WriteFailed

  const NO_FAULTS := Faults(false, false, None)

  /** The sessions directory: each subdirectory with the contents of its `.cwd` file, if any. */
  class Sessions {
    var dirs: map<Str, Option<Str>>

    method EnsureSessionsCwdDir(env: Env, cwd: Str, faults: Faults) returns (r: Result<Str, Failure>)
      modifies this
      ensures
        var name := DirName(env, cwd);
        var prior := if name in old(dirs) then old(dirs)[name] else None;
        && dirs == (if faults.createDir then old(dirs) else old(dirs)[name := Recorded(env, cwd, prior, faults)])
        && (r.Ok? <==>
              && !faults.createDir
              && (name == UrlEncode(cwd) || (!faults.createFile && (prior.Some? || faults.stopsAfter.None?))))
        && (r.Ok? ==> r.value == name)
    {
      var name := EncodeCwdDirname(env, cwd);
      if faults.createDir {
        return Err(DirFailed);
      }
      if name !in dirs {
        dirs := dirs[name := None];
      }
      if name != UrlEncode(cwd) {
        if faults.createFile {
          return Err(RecordFailed);
        }
        if dirs[name].None? {
          if faults.stopsAfter.Some? {
            dirs := dirs[name := Some(Take(cwd, faults.stopsAfter.value))];
            return Err(WriteFailed);
          }
          dirs := dirs[name := Some(cwd)];
        }
      }
      return Ok(name);
    }

    method DecodeCwdFromDirname(env: Env, name: Str) returns (cwd: Option<Str>)
      ensures cwd == Decoded(env, name, if name in dirs then dirs[name] else None)
    {
      var decoded := UrlDecode(name);
      if env.utf8(decoded) {
        if LooksAbsolute(env, decoded) {
          return Some(decoded);
        }
      }
      if name !in dirs || dirs[name].None? || !env.utf8(dirs[name].value) {
        return None;
      }
      return Some(env.trim(dirs[name].value));
    }
  }

  /** The `.cwd` contents after the directory is ensured: written once, and only for hashed names. */
  function Recorded(env: Env, cwd: Str, prior: Option<Str>, faults: Faults): Option<Str> {
    if DirName(env, cwd) == UrlEncode(cwd) || faults.createFile || prior.Some? then prior
    else if faults.stopsAfter.Some? then Some(Take(cwd, faults.stopsAfter.value))
    else Some(cwd)
  }

  function Decoded(env: Env, name: Str, recorded: Option<Str>): Option<Str> {
    var decoded := UrlDecode(name);
    if env.utf8(decoded) && LooksAbsolute(env, decoded) then Some(decoded)
    else if recorded.Some? && env.utf8(recorded.value) then Some(env.trim(recorded.value))
    else None
  }

  lemma HashedDecodes(env: Env, cwd: Str, recorded: Option<Str>)
    requires Sane(env) && !IsShort(cwd)
    ensures DirName(env, cwd) != UrlEncode(cwd)
    ensures Decoded(env, DirName(env, cwd), recorded)
         == if recorded.Some? && env.utf8(recorded.value) then Some(env.trim(recorded.value)) else None
  {
    HashedNameShape(env, cwd);
    PlainDecodesToItself(HashedName(env, cwd));
  }

  /** A fresh directory leads back to its working directory exactly when the path is absolute,
      for a short name, or carries no white space at its ends, for a hashed one. */
  lemma FreshRoundTrip(env: Env, cwd: Str)
    requires Sane(env) && env.utf8(cwd)
    ensures Decoded(env, DirName(env, cwd), Recorded(env, cwd, None, NO_FAULTS)) == Some(cwd)
      <==> if IsShort(cwd) then LooksAbsolute(env, cwd) else env.trim(cwd) == cwd
  {
    if IsShort(cwd) {
      UrlRoundTrip(cwd);
    } else {
      HashedDecodes(env, cwd, Some(cwd));
    }
  }

  /** Ensuring a directory again never changes what it decodes to. */
  lemma EnsureAgainKeeps(env: Env, cwd: Str, prior: Option<Str>, faults: Faults)
    ensures var once := Recorded(env, cwd, prior, NO_FAULTS); Recorded(env, cwd, once, faults) == once
    ensures prior.Some? ==> Recorded(env, cwd, prior, faults) == prior
  {
  }

  /** A record whose writing stopped early stays that way: later calls find it there and succeed,
      and the directory never again leads back to its working directory. */
  lemma TornRecordStays(env: Env, cwd: Str, n: nat, later: Faults)
    requires Sane(env) && !IsShort(cwd) && n < |cwd|
    ensures
      var torn := Recorded(env, cwd, None, Faults(false, false, Some(n)));
      && torn == Some(cwd[..n])
      && Recorded(env, cwd, torn, later) == torn
      && Decoded(env, DirName(env, cwd), torn) != Some(cwd)
  {
    HashedDecodes(env, cwd, Some(cwd[..n]));
  }

  // ---------------------------------------------------------------- directories that do not lead back

  lemma {:induction false} EncodingIsNoShorter(s: Str)
    ensures |UrlEncode(s)| >= |s|
  {
    if s != [] {
      EncodingIsNoShorter(s[1..]);
    }
  }

  /** An environment that trims spaces at the end. */
  ghost function SampleEnv(): Env {
    Env((s: Str) => Repeat(48, 16), (s: Str) => [], (s: Str) => true, TrimSpaces, false)
  }

  function TrimSpaces(s: Str): (t: Str)
    ensures |t| <= |s|
  {
    if s != [] && s[|s| - 1] == SPACE then TrimSpaces(s[..|s| - 1]) else s
  }

  function Repeat(b: Byte, n: nat): (s: Str)
    ensures |s| == n && forall c :: c in s ==> c == b
  {
    seq(n, i => b)
  }

  /** A relative path is not led back to, and neither is a long one that ends in a space. */
  lemma LostDirectories()
    ensures
      var env, relative := SampleEnv(), [97];
      Sane(env) && Decoded(env, DirName(env, relative), Recorded(env, relative, None, NO_FAULTS)) == None
    ensures
      var env, path := SampleEnv(), [SLASH] + Repeat(97, 299);
      var padded := path + [SPACE];
      Decoded(env, DirName(env, padded), Recorded(env, padded, None, NO_FAULTS)) == Some(path)
  {
    var env, path := SampleEnv(), [SLASH] + Repeat(97, 299);
    var padded := path + [SPACE];
    assert Sane(env);
    PlainDecodesToItself([97]);
    assert UrlEncode([97]) == [97] by {
      assert UrlEncode([97]) == EncodeByte(97) + UrlEncode([97][1..]);
    }
    EncodingIsNoShorter(padded);
    HashedDecodes(env, padded, Some(padded));
    assert padded[..300] == path;
    assert path[299] in Repeat(97, 299) by {
      assert path[299] == Repeat(97, 299)[298];
    }
  }
}
