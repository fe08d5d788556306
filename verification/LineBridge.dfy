/** The editor's side of the newline-framed JSON-RPC connection: cutting output into lines, and
    matching responses to requests (section 5 of the JSON-RPC 2.0 specification). */
module LineBridge {
  import opened Wrappers
  import opened Sequences
  import opened Text

  datatype Id = Number(n: int) | Word(text: string) | Other

  /** What a line parses to. `Null` is JSON `null`, on which the handler throws. */
  datatype Parsed =
    | NotJson
    | Null
    | Message(id: Option<Id>, hasMethod: bool, value: string)

  // ---------------------------------------------------------------- lines of a text

  function FirstNewline(s: string): (i: Option<nat>)
    ensures i.Some? ==> i.value < |s| && s[i.value] == '\n' && '\n' !in s[..i.value]
    ensures i.None? ==> '\n' !in s
  {
    if s == [] then None
    else if s[0] == '\n' then Some(0)
    else
      var j := FirstNewline(s[1..]);
      if j.None? then None
      else
        assert s[..j.value + 1] == [s[0]] + s[1..][..j.value];
        Some(j.value + 1)
  }

  function Clean(raw: string): seq<string> {
    if Trim(JsSpace, raw) == "" then [] else [Trim(JsSpace, raw)]
  }

  /** The trimmed, non-empty, newline-terminated lines of a text. */
  function Lines(s: string): seq<string>
    decreases |s|
  {
    var i := FirstNewline(s);
    if i.None? then [] else Clean(s[..i.value]) + Lines(s[i.value + 1..])
  }

  /** What follows the last newline. */
  function Rest(s: string): string
    decreases |s|
  {
    var i := FirstNewline(s);
    if i.None? then s else Rest(s[i.value + 1..])
  }

  // ---------------------------------------------------------------- what the handler drains

  predicate Throws(parse: string -> Parsed, line: string) {
    parse(line).Null?
  }

  /** The lines handled and the text left when the buffer holds `s`: handling stops after a line
      on which the handler throws. */
  function Drain(parse: string -> Parsed, s: string): (seq<string>, string)
    decreases |s|
  {
    var i := FirstNewline(s);
    if i.None? then ([], s)
    else
      var line := Trim(JsSpace, s[..i.value]);
      var rest := s[i.value + 1..];
      if line == "" then Drain(parse, rest)
      else if Throws(parse, line) then ([line], rest)
      else
        var more := Drain(parse, rest);
        ([line] + more.0, more.1)
  }

  /** Handled lines and buffer after the chunks arrive one after the other at a buffer that holds
      `start`. */
  function Receive(parse: string -> Parsed, start: string, chunks: seq<string>): (seq<string>, string) {
    if chunks == [] then ([], start)
    else
      var before := Receive(parse, start, chunks[..|chunks| - 1]);
      var now := Drain(parse, before.1 + chunks[|chunks| - 1]);
      (before.0 + now.0, now.1)
  }

  /** No complete line but the last one makes the handler throw. */
  predicate NoEarlyThrow(parse: string -> Parsed, s: string)
    decreases |s|
  {
    var i := FirstNewline(s);
    i.Some? ==>
      var line := Trim(JsSpace, s[..i.value]);
      var rest := s[i.value + 1..];
      && (line != "" && Throws(parse, line) ==> '\n' !in rest)
      && NoEarlyThrow(parse, rest)
  }

  lemma FirstNewlineAppend(s: string, t: string)
    requires FirstNewline(s).Some?
    ensures FirstNewline(s + t) == FirstNewline(s)
    ensures (s + t)[..FirstNewline(s).value] == s[..FirstNewline(s).value]
    ensures (s + t)[FirstNewline(s).value + 1..] == s[FirstNewline(s).value + 1..] + t
  {
    var i := FirstNewline(s).value;
    NewlineAt(s + t, i);
    assert (s + t)[..i] == s[..i];
  }

  lemma {:induction false} NewlineAt(s: string, i: nat)
    requires i < |s| && s[i] == '\n' && '\n' !in s[..i]
    ensures FirstNewline(s) == Some(i)
  {
  }

  lemma {:induction false} LinesAppend(s: string, t: string)
    ensures Lines(s + t) == Lines(s) + Lines(Rest(s) + t)
    ensures Rest(s + t) == Rest(Rest(s) + t)
    decreases |s|
  {
    hide FirstNewline, Clean;
    if FirstNewline(s).Some? {
      FirstNewlineAppend(s, t);
      var i := FirstNewline(s).value;
      var rest := s[i + 1..];
      LinesAppend(rest, t);
      var c, l, m := Clean(s[..i]), Lines(rest), Lines(Rest(rest) + t);
      assert c + (l + m) == c + l + m;
    } else {
      assert Lines(s) == [] && Rest(s) == s;
    }
  }

  lemma {:induction false} RestHasNoNewline(s: string)
    ensures '\n' !in Rest(s)
    decreases |s|
  {
    if FirstNewline(s).Some? {
      RestHasNoNewline(s[FirstNewline(s).value + 1..]);
    }
  }

  lemma {:induction false} NoEarlyThrowPrefix(parse: string -> Parsed, s: string, t: string)
    requires NoEarlyThrow(parse, s + t)
    ensures NoEarlyThrow(parse, s)
    ensures NoEarlyThrow(parse, Rest(s) + t)
    decreases |s|
  {
    if FirstNewline(s).Some? {
      FirstNewlineAppend(s, t);
      var rest := s[FirstNewline(s).value + 1..];
      assert '\n' in rest ==> '\n' in rest + t;
      NoEarlyThrowPrefix(parse, rest, t);
    }
  }

  /** Draining reaches the last line exactly when nothing throws before it. */
  lemma {:induction false} DrainReachesEnd(parse: string -> Parsed, s: string)
    ensures NoEarlyThrow(parse, s) ==> Drain(parse, s) == (Lines(s), Rest(s))
    ensures !NoEarlyThrow(parse, s) ==> '\n' in Drain(parse, s).1
    decreases |s|
  {
    if FirstNewline(s).Some? {
      var rest := s[FirstNewline(s).value + 1..];
      DrainReachesEnd(parse, rest);
      assert [] + Lines(rest) == Lines(rest);
      if '\n' !in rest {
        assert FirstNewline(rest).None?;
        assert Clean(s[..FirstNewline(s).value]) + [] == Clean(s[..FirstNewline(s).value]);
      }
    }
  }

  lemma {:induction false} NoNewlineNoLines(s: string)
    requires '\n' !in s
    ensures Lines(s) == [] && Rest(s) == s
  {
  }

  lemma {:induction false} ReceiveIsLines(parse: string -> Parsed, start: string, chunks: seq<string>)
    requires '\n' !in start && NoEarlyThrow(parse, start + Concat(chunks))
    ensures Receive(parse, start, chunks) == (Lines(start + Concat(chunks)), Rest(start + Concat(chunks)))
    decreases |chunks|
  {
    if chunks == [] {
      assert start + Concat(chunks) == start;
      NoNewlineNoLines(start);
    } else {
      var n := |chunks| - 1;
      var s := start + Concat(chunks[..n]);
      assert start + Concat(chunks) == s + chunks[n];
      NoEarlyThrowPrefix(parse, s, chunks[n]);
      ReceiveIsLines(parse, start, chunks[..n]);
      DrainReachesEnd(parse, Rest(s) + chunks[n]);
      LinesAppend(s, chunks[n]);
    }
  }

  lemma ReceiveAtOnce(parse: string -> Parsed, start: string, text: string)
    ensures Concat([text]) == text && Receive(parse, start, [text]) == Drain(parse, start + text)
  {
    assert [text][..0] == [];
    assert Concat([text][..0]) == "" && Receive(parse, start, [text][..0]) == ([], start);
    assert "" + text == text;
    assert [] + Drain(parse, start + text).0 == Drain(parse, start + text).0;
  }

  /** The lines handled and the buffer do not depend on how the output is cut into chunks exactly
      when no line but the last complete one is JSON `null`. */
  lemma ChunkingIsHarmlessIff(parse: string -> Parsed, text: string)
    ensures NoEarlyThrow(parse, text) <==>
      forall chunks :: Concat(chunks) == text ==> Receive(parse, "", chunks) == (Lines(text), Rest(text))
  {
    if NoEarlyThrow(parse, text) {
      forall chunks | Concat(chunks) == text
        ensures Receive(parse, "", chunks) == (Lines(text), Rest(text))
      {
        assert "" + text == text;
        ReceiveIsLines(parse, "", chunks);
      }
    } else {
      ReceiveAtOnce(parse, "", text);
      assert "" + text == text;
      DrainReachesEnd(parse, text);
      RestHasNoNewline(text);
    }
  }

  /** A parser that knows `null` and nothing else. */
  function NullOnly(line: string): Parsed {
    if line == "null" then Null else NotJson
  }

  /** A `null` line holds up the line after it: in one chunk the second line waits in the buffer,
      in two chunks it is handled. */
  lemma NullHoldsUpLines()
    ensures Receive(NullOnly, "", ["null\nx\n"]) == (["null"], "x\n")
    ensures Receive(NullOnly, "", ["null\n", "x\n"]) == (["null", "x"], "")
  {
    WordsTrim();
    hide Trim, NullOnly, Drain, FirstNewline;
    assert "" + "null\nx\n" == "null" + "\n" + "x\n" && "" + "null\n" == "null" + "\n" + "";
    assert "" + "x\n" == "x" + "\n" + "" && ["null"] + ["x"] == ["null", "x"] && ["x"] + [] == ["x"];
    ReceiveAtOnce(NullOnly, "", "null\nx\n");
    ReceiveAtOnce(NullOnly, "", "null\n");
    assert ["null\n", "x\n"][..1] == ["null\n"];
    LineThenRest(NullOnly, "null", "x\n");
    LineThenRest(NullOnly, "null", "");
    LineThenRest(NullOnly, "x", "");
  }

  lemma WordsTrim()
    ensures Trim(JsSpace, "null") == "null" && Trim(JsSpace, "x") == "x"
    ensures Throws(NullOnly, "null") && !Throws(NullOnly, "x")
    ensures Drain(NullOnly, "") == ([], "")
  {
    assert |"null"| != |"x"|;
  }

  /** Draining starts with the first line. */
  lemma LineThenRest(parse: string -> Parsed, line: string, rest: string)
    requires '\n' !in line
    ensures
      var trimmed, more := Trim(JsSpace, line), Drain(parse, rest);
      Drain(parse, line + "\n" + rest) ==
        if trimmed == "" then more
        else if Throws(parse, trimmed) then ([trimmed], rest)
        else ([trimmed] + more.0, more.1)
  {
    var s := line + "\n" + rest;
    assert s[..|line|] == line && s[|line| + 1..] == rest;
    NewlineAt(s, |line|);
  }

  // ---------------------------------------------------------------- the next child

  lemma LinesFromFront(line: string, rest: string)
    requires '\n' !in line
    ensures Lines(line + "\n" + rest) == Clean(line) + Lines(rest)
    ensures Rest(line + "\n" + rest) == Rest(rest)
  {
    var s := line + "\n" + rest;
    assert s[..|line|] == line && s[|line| + 1..] == rest;
    NewlineAt(s, |line|);
  }

  /** The lines of a text, first line first: blank lines are left out, the others trimmed, and what no
      newline ends is no line yet. */
  lemma FramedLines(line: string, rest: string)
    requires '\n' !in line
    ensures Lines(line + "\n" + rest) == (if Blank(JsSpace, line) then [] else [Trim(JsSpace, line)]) + Lines(rest)
    ensures Lines(line) == [] && Rest(line) == line
  {
    LinesFromFront(line, rest);
    TrimOfBlank(JsSpace, line);
    hide Trim, Blank;
  }

  /** The exit of one child leaves the buffer as it is, and the next child's output is put behind
      it. If the old child then writes no more, that output is framed by its own newlines exactly
      when what was left held no line, and the output has no newline either or what was left is
      white space. For an old child that still writes see `LateOutputIsHarmlessIff`. */
  lemma LeftoverIsHarmlessIff(left: string, text: string)
    ensures Lines(left + text) == Lines(text)
      <==> Lines(left) == [] && ('\n' in text ==> Blank(JsSpace, Rest(left)))
  {
    LinesAppend(left, text);
    RestHasNoNewline(left);
    if '\n' in text {
      LeftoverLine(Rest(left), text);
      assert |Lines(left + text)| == |Lines(left)| + |Lines(Rest(left) + text)|;
      assert Lines(left) == [] ==> Lines(left + text) == Lines(Rest(left) + text);
    } else {
      NoNewlineNoLines(text);
      NoNewlineNoLines(Rest(left) + text);
      assert Lines(left) + [] == Lines(left);
    }
  }

  lemma LeftoverLine(left: string, text: string)
    requires '\n' !in left && '\n' in text
    ensures Lines(left + text) == Lines(text) <==> Blank(JsSpace, left)
    ensures |Lines(left + text)| >= |Lines(text)|
  {
    var i := FirstNewline(text).value;
    var line, rest := text[..i], text[i + 1..];
    assert text == line + "\n" + rest;
    assert left + text == (left + line) + "\n" + rest;
    LinesFromFront(line, rest);
    LinesFromFront(left + line, rest);
    TrimPrefix(JsSpace, left, line);
    hide Trim, Lines;
    if !Blank(JsSpace, left) {
      assert Lines(left + text)[0] == Trim(JsSpace, left + line);
      assert Clean(line) != [] ==> Lines(text)[0] == Trim(JsSpace, line);
    }
  }

  /** A child that exits in the middle of a line garbles the first line of the next one. */
  lemma LeftoverGarblesLine()
    ensures Lines("a" + "b\n") == ["ab"] && Lines("b\n") == ["b"]
  {
    PlainWordsTrim();
    hide *;
    LinesFromFront("ab", "");
    LinesFromFront("b", "");
    assert "a" + "b\n" == "ab" + "\n" + "" && "b\n" == "b" + "\n" + "";
    assert ["ab"] + [] == ["ab"] && ["b"] + [] == ["b"];
  }

  /** The old child's `late` output arrives after `before` and ahead of `more`: its lines come in
      between, and those of the new child stay as they are. */
  ghost predicate Survives(before: string, late: string, more: string) {
    Lines(before + late + more) == Lines(before) + Lines(late) + Lines(Rest(before) + more)
  }

  /** Output of the old child that arrives late, while the next child writes, does no harm whatever
      the next child goes on to write exactly when it is empty, or when it starts between two lines
      of the next child and ends between two of its own, white space aside. */
  lemma LateOutputIsHarmlessIff(before: string, late: string)
    ensures (forall more :: Survives(before, late, more))
      <==> late == "" || (Blank(JsSpace, Rest(before)) && Blank(JsSpace, Rest(late)))
  {
    if late == "" || (Blank(JsSpace, Rest(before)) && Blank(JsSpace, Rest(late))) {
      forall more
        ensures Survives(before, late, more)
      {
        BetweenLines(before, late, more);
      }
    } else {
      var more := WhereItShows(before, late);
      assert !Survives(before, late, more);
    }
  }

  /** What is handled after `before`, with and without the old child in between. */
  lemma SurvivesIff(before: string, late: string, more: string)
    ensures
      var q := Rest(before);
      Survives(before, late, more) <==> Lines(q + late) + Lines(Rest(q + late) + more) == Lines(late) + Lines(q + more)
  {
    var q := Rest(before);
    LinesAppend(before + late, more);
    LinesAppend(before, late);
    hide Lines, Rest;
    var a, b, c, d, e := Lines(before), Lines(q + late), Lines(Rest(q + late) + more), Lines(late), Lines(q + more);
    assert a + b + c == a + (b + c) && a + d + e == a + (d + e);
    if a + (b + c) == a + (d + e) {
      Cancel(a, b + c, d + e);
    }
  }

  lemma Cancel(a: seq<string>, b: seq<string>, c: seq<string>)
    requires a + b == a + c
    ensures b == c
  {
    assert b == (a + b)[|a|..] && c == (a + c)[|a|..];
  }

  /** White space in front of a text changes neither its lines nor what is white space after them. */
  lemma BlankInFront(blank: string, text: string)
    requires '\n' !in blank && Blank(JsSpace, blank)
    ensures Lines(blank + text) == Lines(text)
    ensures Rest(blank + text) == if '\n' in text then Rest(text) else blank + text
  {
    if '\n' in text {
      LeftoverLine(blank, text);
      LeftoverRest(blank, text);
    } else {
      NoNewlineNoLines(text);
      NoNewlineNoLines(blank + text);
    }
  }

  lemma LeftoverRest(left: string, text: string)
    requires '\n' !in left && '\n' in text
    ensures Rest(left + text) == Rest(text)
  {
    hide Lines, Clean, Rest;
    var i := FirstNewline(text).value;
    var line, rest := text[..i], text[i + 1..];
    assert text == line + "\n" + rest;
    assert left + text == (left + line) + "\n" + rest;
    LinesFromFront(line, rest);
    LinesFromFront(left + line, rest);
  }

  lemma BetweenLines(before: string, late: string, more: string)
    requires late == "" || (Blank(JsSpace, Rest(before)) && Blank(JsSpace, Rest(late)))
    ensures Survives(before, late, more)
  {
    var q := Rest(before);
    RestHasNoNewline(before);
    RestHasNoNewline(late);
    SurvivesIff(before, late, more);
    if late == "" {
      NoNewlineNoLines(q);
      assert q + late == q && Lines(late) == [];
    } else {
      BlankInFront(q, late);
      BlankInFront(q, more);
      if '\n' in late {
        BlankInFront(Rest(late), more);
      } else {
        NoNewlineNoLines(late);
        BlankInFront(q + late, more);
      }
    }
  }

  /** What the next child would have to write for late output to show. */
  lemma WhereItShows(before: string, late: string) returns (more: string)
    requires late != "" && !(Blank(JsSpace, Rest(before)) && Blank(JsSpace, Rest(late)))
    ensures !Survives(before, late, more)
  {
    hide Survives, Blank, Rest;
    more := if Blank(JsSpace, Rest(before)) then "\n" else if '\n' in late then "" else "x\n";
    SurvivesIff(before, late, more);
    RestHasNoNewline(before);
    if Blank(JsSpace, Rest(before)) {
      LateRestShows(Rest(before), late);
    } else if '\n' in late {
      CutLineShows(Rest(before), late);
    } else {
      InsertionShows(Rest(before), late);
    }
  }

  lemma LateRestShows(q: string, late: string)
    requires '\n' !in q && Blank(JsSpace, q) && !Blank(JsSpace, Rest(late))
    ensures Lines(q + late) + Lines(Rest(q + late) + "\n") != Lines(late) + Lines(q + "\n")
  {
    BlankInFront(q, late);
    RestHasNoNewline(q + late);
    EndsLine(q, "");
    EndsLine(Rest(q + late), "");
    TrimOfBlank(JsSpace, q);
    NotBlankWithin(q, late);
    TrimOfBlank(JsSpace, Rest(q + late));
    assert "" + "\n" == "\n" && q + "" == q && Rest(q + late) + "" == Rest(q + late);
    assert |Lines(Rest(q + late) + "\n")| == 1 && |Lines(q + "\n")| == 0;
  }

  lemma NotBlankWithin(blank: string, late: string)
    requires '\n' !in blank && Blank(JsSpace, blank) && !Blank(JsSpace, Rest(late))
    ensures !Blank(JsSpace, Rest(blank + late))
  {
    BlankInFront(blank, late);
    if '\n' !in late {
      NoNewlineNoLines(late);
      var i :| 0 <= i < |late| && !JsSpace(late[i]);
      assert (blank + late)[|blank| + i] == late[i];
    }
  }

  lemma CutLineShows(q: string, late: string)
    requires '\n' !in q && !Blank(JsSpace, q) && '\n' in late
    ensures Lines(q + late) + Lines(Rest(q + late) + "") != Lines(late) + Lines(q + "")
  {
    LeftoverLine(q, late);
    RestHasNoNewline(q + late);
    NoNewlineNoLines(q);
    NoNewlineNoLines(Rest(q + late));
    hide Trim, Blank, Lines, Rest;
    assert q + "" == q && Rest(q + late) + "" == Rest(q + late);
    assert Lines(q + late) + [] == Lines(q + late) && Lines(late) + [] == Lines(late);
  }

  lemma InsertionShows(q: string, late: string)
    requires '\n' !in q && !Blank(JsSpace, q) && '\n' !in late && late != ""
    ensures Lines(q + late) + Lines(Rest(q + late) + "x\n") != Lines(late) + Lines(q + "x\n")
  {
    hide *;
    NoNewlineNoLines(late);
    NoNewlineNoLines(q + late);
    EndsLine(q, "x");
    EndsLine(q + late, "x");
    ShownLonger(q, late);
    assert "x" + "\n" == "x\n";
    assert [] + Clean(q + late + "x") == Clean(q + late + "x") && [] + Clean(q + "x") == Clean(q + "x");
  }

  lemma EndsLine(rest: string, text: string)
    requires '\n' !in rest && '\n' !in text
    ensures Lines(rest + (text + "\n")) == Clean(rest + text)
  {
    LinesFromFront(rest + text, "");
    assert rest + (text + "\n") == (rest + text) + "\n" + "";
    assert Lines("") == [];
  }

  /** A line that starts and ends with something else than white space shows what is put into it. */
  lemma ShownLonger(start: string, inserted: string)
    requires !Blank(JsSpace, start) && inserted != ""
    ensures Clean(start + inserted + "x") != Clean(start + "x")
  {
    var i :| 0 <= i < |start| && !JsSpace(start[i]);
    assert (start + inserted)[i] == start[i];
    TrimAroundX(start);
    TrimAroundX(start + inserted);
    TrimStartConcat(JsSpace, start, inserted);
    assert (TrimStart(JsSpace, start + inserted) + "x") != TrimStart(JsSpace, start) + "x";
  }

  lemma TrimAroundX(start: string)
    requires !Blank(JsSpace, start)
    ensures Clean(start + "x") == [TrimStart(JsSpace, start) + "x"]
  {
    TrimStartConcat(JsSpace, start, "x");
  }

  /** Late output of the old child in the middle of a line of the next one: the line is cut in two, and
      the old child's text is taken into its first half. */
  lemma LateOutputGarblesLine()
    ensures Lines("a" + "o\n" + "b\n") == ["ao", "b"] && Lines("a" + "b\n") == ["ab"]
  {
    PlainWordsTrim();
    hide *;
    LinesFromFront("ao", "b\n");
    LinesFromFront("b", "");
    LinesFromFront("ab", "");
    assert "a" + "o\n" + "b\n" == "ao" + "\n" + "b\n" && "b\n" == "b" + "\n" + "";
    assert "a" + "b\n" == "ab" + "\n" + "";
    assert ["ao"] + ["b"] == ["ao", "b"] && ["b"] + [] == ["b"] && ["ab"] + [] == ["ab"];
  }

  lemma PlainWordsTrim()
    ensures Clean("ao") == ["ao"] && Clean("b") == ["b"] && Clean("ab") == ["ab"] && Lines("") == []
  {
  }

  // ---------------------------------------------------------------- requests and responses

  class Bridge {
    const parse: string -> Parsed
    var buffer: string
    var nextId: nat
    var pending: set<nat>
    /** Requests written to the child. */
    var sent: seq<nat>
    /** The child that requests go to, by the order of starts, and how many were started. */
    var child: Option<nat>
    var started: nat
    /** That child takes input. */
    var writable: bool
    /** The children that have not exited. */
    ghost var running: set<nat>
    /** Lines given to the handler. */
    ghost var handled: seq<string>
    /** Which line resolved which request. */
    ghost var resolved: map<nat, string>

    ghost predicate Valid()
      reads this
    {
      && nextId >= 1
      && (writable ==> child.Some?)
      && (child.Some? ==> child.value in running)
      && (forall k :: k in running ==> k < started)
      && (forall id :: 1 <= id < nextId <==> id in pending || id in resolved)
      && (forall id :: id in resolved ==> id !in pending && Answers(parse, resolved[id], id) && resolved[id] in handled)
    }

    constructor (parse: string -> Parsed)
      ensures Valid() && buffer == "" && handled == [] && pending == {} && resolved == map[]
      ensures this.parse == parse
    {
      this.parse := parse;
      buffer := "";
      nextId := 1;
      pending := {};
      sent := [];
      child := None;
      writable := false;
      running := {};
      started := 0;
      handled := [];
      resolved := map[];
    }

    /** Start a child, unless there is one or the start fails, and send the first request. Text and
        requests left over from the last child stay, and so may that child itself. */
    method StartSession(spawns: bool) returns (init: Option<nat>)
      requires Valid()
      modifies this`child, this`writable, this`running, this`started, this`nextId, this`pending, this`sent
      ensures Valid()
      ensures init.Some? <==> old(child).None? && spawns
      ensures init.Some? ==>
        child == Some(old(started)) && child.value !in old(running) && running == old(running) + {child.value}
        && writable && init.value == old(nextId) && init.value !in old(pending)
        && pending == old(pending) + {init.value} && sent == old(sent) + [init.value]
      ensures init.None? ==>
        child == old(child) && writable == old(writable) && running == old(running)
        && pending == old(pending) && sent == old(sent)
    {
      if child.Some? {
        return None;
      }
      if !spawns {
        return None;
      }
      child := Some(started);
      running := running + {started};
      started := started + 1;
      writable := true;
      var id := Request();
      return Some(id);
    }

    /** Kill the child and let go of it without waiting for its exit: it may still write. */
    method StopSession()
      requires Valid()
      modifies this`child, this`writable
      ensures Valid() && child.None? && !writable
    {
      if child.None? {
        return;
      }
      child := None;
      writable := false;
    }

    /** The exit of any child, whichever it is, lets go of the current one: after a late exit of an
        older child the new one runs on without being reachable. */
    method ChildExits(k: nat)
      requires Valid() && k in running
      modifies this`child, this`writable, this`running
      ensures Valid() && child.None? && !writable && running == old(running) - {k}
      ensures old(child).Some? && old(child).value != k ==> old(child).value in running
    {
      running := running - {k};
      child := None;
      writable := false;
    }

    /** Issue a request: its id is new, so no pending request is lost. */
    method Request() returns (id: nat)
      requires Valid()
      modifies this`nextId, this`pending, this`sent
      ensures Valid()
      ensures id == old(nextId) && id !in old(pending) && id !in resolved
      ensures nextId == old(nextId) + 1 && pending == old(pending) + {id}
      ensures sent == if writable then old(sent) + [id] else old(sent)
    {
      id := nextId;
      nextId := nextId + 1;
      pending := pending + {id};
      if writable {
        sent := sent + [id];
      }
    }

    method HandleServerLine(line: string) returns (threw: bool)
      requires Valid()
      modifies this`pending, this`handled, this`resolved
      ensures Valid()
      ensures threw == Throws(parse, line)
      ensures handled == old(handled) + [line]
      ensures forall id :: id in old(pending) && Answers(parse, line, id) ==>
        pending == old(pending) - {id} && resolved == old(resolved)[id := line]
      ensures (forall id :: id in old(pending) ==> !Answers(parse, line, id)) ==>
        pending == old(pending) && resolved == old(resolved)
    {
      handled := handled + [line];
      var msg := parse(line);
      if msg.NotJson? {
        return false;
      }
      if msg.Null? {
        return true;
      }
      if msg.id.Some? && !msg.hasMethod {
        if msg.id.value.Number? && msg.id.value.n >= 0 && msg.id.value.n in pending {
          pending := pending - {msg.id.value.n};
          resolved := resolved[msg.id.value.n := line];
        }
        return false;
      }
      return false;
    }

    /** Cut the first line off the buffer and handle it; `now` is the line handled, if it is not blank. */
    method TakeLine() returns (threw: bool, ghost now: seq<string>)
      requires Valid() && FirstNewline(buffer).Some?
      modifies this`buffer, this`pending, this`handled, this`resolved
      ensures Valid() && |buffer| < |old(buffer)| && handled == old(handled) + now
      ensures Drain(parse, old(buffer)) ==
        if threw then (now, buffer) else (now + Drain(parse, buffer).0, Drain(parse, buffer).1)
      ensures Answered(parse, now, old(pending), pending)
      ensures forall id :: id in old(resolved) ==> id in resolved && resolved[id] == old(resolved)[id]
    {
      hide Trim, FirstNewline, Answers;
      var idx := FirstNewline(buffer).value;
      var line := Trim(JsSpace, buffer[..idx]);
      buffer := buffer[idx + 1..];
      threw, now := false, [];
      assert now + Drain(parse, buffer).0 == Drain(parse, buffer).0;
      if line != "" {
        now := [line];
        threw := HandleServerLine(line);
      }
    }

    /** A chunk of output arrives, from whichever child: the requests that the handled lines answer are
        resolved, and answers already given stay as they are. */
    method OnData(chunk: string)
      requires Valid()
      modifies this`buffer, this`pending, this`handled, this`resolved
      ensures Valid()
      ensures (handled, buffer)
        == (old(handled) + Drain(parse, old(buffer) + chunk).0, Drain(parse, old(buffer) + chunk).1)
      ensures Answered(parse, Drain(parse, old(buffer) + chunk).0, old(pending), pending)
      ensures forall id :: id in old(resolved) ==> id in resolved && resolved[id] == old(resolved)[id]
    {
      buffer := buffer + chunk;
      assert Valid();
      hide *;
      NoneAnswered(parse, pending);
      ghost var start, done := buffer, [];
      DrainsFrom(parse, start);
      assert handled + done == handled;
      while FirstNewline(buffer).Some?
        invariant Valid()
        invariant handled == old(handled) + done
        invariant Drains(parse, start, done, buffer)
        invariant Answered(parse, done, old(pending), pending)
        invariant forall id :: id in old(resolved) ==> id in resolved && resolved[id] == old(resolved)[id]
        decreases |buffer|
      {
        ghost var was, held := pending, buffer;
        var threw, now := TakeLine();
        AnsweredMore(parse, done, now, old(pending), was, pending);
        DrainsOn(parse, start, done, held, now, buffer, threw);
        Associates(old(handled), done, now);
        done := done + now;
        if threw {
          return;
        }
      }
      DrainsNothing(parse, start, done, buffer);
    }
  }

  /** Draining `start` hands over `done` and goes on with `left`. */
  ghost predicate Drains(parse: string -> Parsed, start: string, done: seq<string>, left: string) {
    Drain(parse, start) == (done + Drain(parse, left).0, Drain(parse, left).1)
  }

  lemma DrainsFrom(parse: string -> Parsed, start: string)
    ensures Drains(parse, start, [], start)
  {
    assert [] + Drain(parse, start).0 == Drain(parse, start).0;
  }

  lemma DrainsOn(parse: string -> Parsed, start: string, done: seq<string>, held: string, now: seq<string>,
                 left: string, threw: bool)
    requires Drains(parse, start, done, held)
    requires Drain(parse, held) == if threw then (now, left) else (now + Drain(parse, left).0, Drain(parse, left).1)
    ensures if threw then Drain(parse, start) == (done + now, left) else Drains(parse, start, done + now, left)
  {
    hide Drain;
    assert done + (now + Drain(parse, left).0) == done + now + Drain(parse, left).0;
  }

  lemma DrainsNothing(parse: string -> Parsed, start: string, done: seq<string>, left: string)
    requires FirstNewline(left).None? && Drains(parse, start, done, left)
    ensures Drain(parse, start) == (done, left)
  {
    assert done + [] == done;
  }

  lemma Associates(a: seq<string>, b: seq<string>, c: seq<string>)
    ensures a + b + c == a + (b + c)
  {
  }

  lemma NoneAnswered(parse: string -> Parsed, pending: set<nat>)
    ensures Answered(parse, [], pending, pending)
  {
  }

  /** Of the requests in `was`, the handled lines leave pending exactly those they do not answer. */
  ghost predicate Answered(parse: string -> Parsed, lines: seq<string>, was: set<nat>, now: set<nat>) {
    && now <= was
    && forall id :: id in was ==> (id in now <==> forall l :: l in lines ==> !Answers(parse, l, id))
  }

  lemma AnsweredMore(parse: string -> Parsed, a: seq<string>, b: seq<string>, p: set<nat>, q: set<nat>, r: set<nat>)
    requires Answered(parse, a, p, q) && Answered(parse, b, q, r)
    ensures Answered(parse, a + b, p, r)
  {
    hide Answers;
    assert forall l :: l in a + b <==> l in a || l in b;
  }

  /** `line` is a response carrying `id`. */
  predicate Answers(parse: string -> Parsed, line: string, id: nat) {
    var msg := parse(line);
    msg.Message? && msg.id == Some(Number(id)) && !msg.hasMethod
  }
}
