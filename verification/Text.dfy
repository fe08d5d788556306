/** Trimming, as Rust's `str::trim` family and JavaScript's `String.trim` do it. */
module Text {

  /** The characters with the Unicode property White_Space, which Rust trims. */
  predicate RustSpace(c: char) {
    || '\t' <= c <= '\r'
    || c == ' ' || c == '\U{85}' || c == '\U{A0}' || c == '\U{1680}'
    || c == '\U{2028}' || c == '\U{2029}' || c == '\U{202F}' || c == '\U{205F}' || c == '\U{3000}'
    || '\U{2000}' <= c <= '\U{200A}'
  }

  /** What JavaScript trims: it adds the byte order mark and leaves out U+0085. */
  predicate JsSpace(c: char) {
    (RustSpace(c) && c != '\U{85}') || c == '\U{FEFF}'
  }

  function TrimEnd(space: char -> bool, s: string): (r: string)
    ensures r <= s
  {
    if s != [] && space(s[|s| - 1]) then TrimEnd(space, s[..|s| - 1]) else s
  }

  function TrimStart(space: char -> bool, s: string): (r: string)
    ensures |r| <= |s|
  {
    if s != [] && space(s[0]) then TrimStart(space, s[1..]) else s
  }

  function Trim(space: char -> bool, s: string): (r: string)
    ensures |r| <= |s|
  {
    TrimStart(space, TrimEnd(space, s))
  }

  predicate Blank(space: char -> bool, s: string) {
    forall i :: 0 <= i < |s| ==> space(s[i])
  }

  lemma {:induction false} TrimEndOfBlank(space: char -> bool, s: string)
    ensures TrimEnd(space, s) == [] <==> Blank(space, s)
  {
    if s != [] && space(s[|s| - 1]) {
      TrimEndOfBlank(space, s[..|s| - 1]);
      assert s == s[..|s| - 1] + [s[|s| - 1]];
    }
  }

  lemma {:induction false} TrimStartOfBlank(space: char -> bool, s: string)
    ensures TrimStart(space, s) == [] <==> Blank(space, s)
  {
    if s != [] && space(s[0]) {
      TrimStartOfBlank(space, s[1..]);
      assert s == [s[0]] + s[1..];
    }
  }

  /** A string trims to nothing exactly when it holds only white space. */
  lemma TrimOfBlank(space: char -> bool, s: string)
    ensures Trim(space, s) == [] <==> Blank(space, s)
  {
    TrimEndOfBlank(space, s);
    TrimStartOfBlank(space, TrimEnd(space, s));
    if Blank(space, TrimEnd(space, s)) && TrimEnd(space, s) != [] {
      TrimEndKeepsLast(space, s);
    }
  }

  lemma {:induction false} TrimEndKeepsLast(space: char -> bool, s: string)
    ensures var r := TrimEnd(space, s); r != [] ==> !space(r[|r| - 1])
  {
    if s != [] && space(s[|s| - 1]) {
      TrimEndKeepsLast(space, s[..|s| - 1]);
    }
  }

  lemma {:induction false} TrimEndCuts(space: char -> bool, s: string)
    ensures Blank(space, s[|TrimEnd(space, s)|..])
  {
    if s != [] && space(s[|s| - 1]) {
      TrimEndCuts(space, s[..|s| - 1]);
    }
  }

  lemma {:induction false} TrimStartCuts(space: char -> bool, s: string)
    ensures var r := TrimStart(space, s);
      |s| - |r| >= 0 && r == s[|s| - |r|..] && Blank(space, s[..|s| - |r|]) && (r != [] ==> !space(r[0]))
  {
    if s != [] && space(s[0]) {
      TrimStartCuts(space, s[1..]);
    }
  }

  /** Trimming cuts white space off both ends of a text, and stops at the first other character. */
  lemma TrimCuts(space: char -> bool, s: string) returns (lead: string, trail: string)
    ensures s == lead + Trim(space, s) + trail
    ensures Blank(space, lead) && Blank(space, trail)
    ensures var r := Trim(space, s); r != [] ==> !space(r[0]) && !space(r[|r| - 1])
  {
    var front := TrimEnd(space, s);
    TrimEndCuts(space, s);
    TrimEndKeepsLast(space, s);
    TrimStartCuts(space, front);
    lead, trail := front[..|front| - |Trim(space, s)|], s[|front|..];
    assert s == front + trail && front == lead + Trim(space, s);
  }

  /** Trailing white space does not change what is left after trimming the end. */
  lemma {:induction false} TrimEndIgnoresBlank(space: char -> bool, s: string, tail: string)
    requires Blank(space, tail)
    ensures TrimEnd(space, s + tail) == TrimEnd(space, s)
    decreases |tail|
  {
    if tail == [] {
      assert s + tail == s;
    } else {
      var front := tail[..|tail| - 1];
      assert (s + tail)[..|s + tail| - 1] == s + front;
      TrimEndIgnoresBlank(space, s, front);
    }
  }

  lemma {:induction false} TrimEndConcat(space: char -> bool, s: string, tail: string)
    requires !Blank(space, tail)
    ensures TrimEnd(space, s + tail) == s + TrimEnd(space, tail)
    decreases |tail|
  {
    var n := |tail| - 1;
    assert (s + tail)[..|s| + n] == s + tail[..n];
    if space(tail[n]) {
      assert tail == tail[..n] + [tail[n]];
      TrimEndConcat(space, s, tail[..n]);
    }
  }

  /** Putting text in the middle shows after trimming exactly when it, or what follows it, is more
      than white space. */
  lemma InsertedShowsIff(space: char -> bool, s: string, inserted: string, tail: string)
    requires inserted != ""
    ensures TrimEnd(space, s + inserted + tail) == TrimEnd(space, s + tail)
      <==> Blank(space, inserted) && Blank(space, tail)
    ensures !(Blank(space, inserted) && Blank(space, tail)) ==> !Blank(space, s + inserted + tail)
  {
    if !Blank(space, tail) {
      TrimEndConcat(space, s + inserted, tail);
      TrimEndConcat(space, s, tail);
      TrimEndOfBlank(space, tail);
    } else {
      TrimEndIgnoresBlank(space, s + inserted, tail);
      TrimEndIgnoresBlank(space, s, tail);
      if Blank(space, inserted) {
        TrimEndIgnoresBlank(space, s, inserted);
      } else {
        TrimEndConcat(space, s, inserted);
        TrimEndOfBlank(space, inserted);
      }
    }
    TrimEndOfBlank(space, s + inserted + tail);
  }

  lemma {:induction false} TrimStartConcat(space: char -> bool, s: string, tail: string)
    ensures TrimStart(space, s + tail) == if Blank(space, s) then TrimStart(space, tail) else TrimStart(space, s) + tail
    decreases |s|
  {
    if s == [] {
      assert s + tail == tail;
    } else {
      assert (s + tail)[1..] == s[1..] + tail;
      assert s == [s[0]] + s[1..];
      TrimStartConcat(space, s[1..], tail);
    }
  }

  /** White space put in front of a text is trimmed off again; anything else shows. */
  lemma TrimPrefix(space: char -> bool, s: string, tail: string)
    ensures Blank(space, s) ==> Trim(space, s + tail) == Trim(space, tail)
    ensures !Blank(space, s) ==> |Trim(space, s + tail)| > |Trim(space, tail)|
  {
    TrimOfBlank(space, tail);
    TrimOfBlank(space, s + tail);
    if Blank(space, tail) {
      assert Blank(space, s) <==> Blank(space, s + tail) by {
        assert forall i :: 0 <= i < |s| ==> (s + tail)[i] == s[i];
      }
    } else {
      TrimEndConcat(space, s, tail);
      TrimStartConcat(space, s, TrimEnd(space, tail));
      TrimStartOfBlank(space, s);
    }
  }
}
