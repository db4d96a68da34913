/** Captured console output: text arrives in arbitrary pieces and is kept as whole lines in a
    bounded ring. */
module Console {
  import opened Sequences

  const NEWLINE := '\n'

  /** All strings one after the other. */
  function Concat(parts: seq<string>): string {
    if parts == [] then "" else parts[0] + Concat(parts[1..])
  }

  /** The last n elements, or all if there are fewer. */
  function Last<T>(s: seq<T>, n: nat): seq<T> {
    if |s| <= n then s else s[|s| - n..]
  }

  lemma LastEnds<T>(s: seq<T>, n: nat)
    ensures var r := Last(s, n);
      |r| == (if |s| < n then |s| else n) && s[|s| - |r|..] == r
  {
  }

  /** A complete line: it ends in its only newline. */
  ghost predicate IsLine(s: string) {
    s != "" && s[|s| - 1] == NEWLINE && NEWLINE !in s[..|s| - 1]
  }

  /** The text is these lines followed by an unfinished one. */
  ghost predicate IsSplit(text: string, lines: seq<string>, rest: string) {
    && (forall line <- lines :: IsLine(line))
    && NEWLINE !in rest
    && text == Concat(lines) + rest
  }

  function FirstNewline(text: string): (k: nat)
    requires NEWLINE in text
    ensures k < |text| && text[k] == NEWLINE && NEWLINE !in text[..k]
  {
    if text[0] == NEWLINE then 0 else 1 + FirstNewline(text[1..])
  }

  /** The complete lines of a text, each with its newline. */
  function Lines(text: string): seq<string> {
    if NEWLINE !in text then []
    else
      var k := FirstNewline(text) + 1;
      [text[..k]] + Lines(text[k..])
  }

  /** What follows the last newline of a text. */
  function Rest(text: string): string {
    if NEWLINE !in text then text else Rest(text[FirstNewline(text) + 1..])
  }

  lemma ConcatOfMore(line: string, lines: seq<string>)
    ensures Concat([line] + lines) == line + Concat(lines)
  {
    assert ([line] + lines)[1..] == lines;
  }

  lemma {:induction false} ConcatOfBoth(a: seq<string>, b: seq<string>)
    ensures Concat(a + b) == Concat(a) + Concat(b)
  {
    if a == [] {
      assert a + b == b;
    } else {
      ConcatOfBoth(a[1..], b);
      assert a + b == [a[0]] + (a[1..] + b);
      ConcatOfMore(a[0], a[1..] + b);
      Regroup(a[0], Concat(a[1..]), Concat(b));
    }
  }

  lemma FirstLine(text: string)
    requires NEWLINE in text
    ensures var k := FirstNewline(text) + 1;
      IsLine(text[..k]) && text == text[..k] + text[k..]
  {
    var k := FirstNewline(text) + 1;
    assert text[..k][..k - 1] == text[..k - 1];
  }

  lemma {:induction false} LinesSplit(text: string)
    ensures IsSplit(text, Lines(text), Rest(text))
    decreases |text|
  {
    if NEWLINE in text {
      var k := FirstNewline(text) + 1;
      var line, more := text[..k], text[k..];
      LinesSplit(more);
      FirstLine(text);
      SplitMore(line, more, Lines(more), Rest(more));
    }
  }

  lemma SplitMore(line: string, more: string, lines: seq<string>, rest: string)
    requires IsLine(line) && IsSplit(more, lines, rest)
    ensures IsSplit(line + more, [line] + lines, rest)
  {
    ConcatOfMore(line, lines);
    Regroup(line, Concat(lines), rest);
  }

  /** There is only one way to split a text into complete lines and an unfinished one. */
  lemma {:induction false} OneSplit(text: string, lines: seq<string>, rest: string)
    requires IsSplit(text, lines, rest)
    ensures lines == Lines(text) && rest == Rest(text)
    decreases |lines|
  {
    if lines == [] {
      assert text == rest;
    } else {
      var line, more := lines[0], Concat(lines[1..]) + rest;
      Regroup(line, Concat(lines[1..]), rest);
      OneSplit(more, lines[1..], rest);
      LineFirst(line, more);
    }
  }

  lemma LineFirst(line: string, more: string)
    requires IsLine(line)
    ensures NEWLINE in line + more
    ensures Lines(line + more) == [line] + Lines(more) && Rest(line + more) == Rest(more)
  {
    var k, text := |line| - 1, line + more;
    assert text[k] == NEWLINE;
    assert text[..k] == line[..k];
    FirstIs(text, k);
    assert text[..k + 1] == line && text[k + 1..] == more;
  }

  lemma FirstIs(text: string, k: nat)
    requires k < |text| && text[k] == NEWLINE && NEWLINE !in text[..k]
    ensures FirstNewline(text) == k
  {
    var f := FirstNewline(text);
    assert forall j :: 0 <= j < k ==> text[..k][j] == text[j];
    assert forall j :: 0 <= j < f ==> text[..f][j] == text[j];
  }

  lemma JoinSplits(a: string, some: seq<string>, b: string, more: seq<string>, rest: string)
    requires IsSplit(b, more, rest) && forall line <- some :: IsLine(line)
    requires a == Concat(some)
    ensures IsSplit(a + b, some + more, rest)
  {
    ConcatOfBoth(some, more);
    Regroup(a, Concat(more), rest);
  }

  /** A text that grows keeps its lines; the unfinished one goes on. */
  lemma LinesOfMore(text: string, more: string)
    ensures Lines(text + more) == Lines(text) + Lines(Rest(text) + more)
    ensures Rest(text + more) == Rest(Rest(text) + more)
  {
    var unfinished := Rest(text) + more;
    LinesSplit(text);
    LinesSplit(unfinished);
    var done := Concat(Lines(text));
    Regroup(done, Rest(text), more);
    JoinSplits(done, Lines(text), unfinished, Lines(unfinished), Rest(unfinished));
    OneSplit(done + unfinished, Lines(text) + Lines(unfinished), Rest(unfinished));
  }

  // ---- the capture ------------------------------------------------------------------------------

  datatype State = State(pending: string, messages: seq<string>, emitted: seq<string>)

  const EMPTY := State("", [], [])

  /** After one piece of text, in a ring of this size. */
  function Fed(s: State, text: string, maxMessages: nat): State {
    var lines := Lines(s.pending + text);
    State(Rest(s.pending + text), Last(s.messages + lines, maxMessages), s.emitted + lines)
  }

  function FedAll(chunks: seq<string>, maxMessages: nat): State {
    if chunks == [] then EMPTY
    else Fed(FedAll(chunks[..|chunks| - 1], maxMessages), chunks[|chunks| - 1], maxMessages)
  }

  lemma LastOfLast<T>(a: seq<T>, b: seq<T>, n: nat)
    ensures Last(Last(a, n) + b, n) == Last(a + b, n)
  {
  }

  lemma LastTwice<T>(s: seq<T>, m: nat, n: nat)
    ensures Last(Last(s, m), n) == Last(s, if m < n then m else n)
  {
  }

  lemma ConcatOfLast(chunks: seq<string>)
    requires chunks != []
    ensures var n := |chunks| - 1; Concat(chunks) == Concat(chunks[..n]) + chunks[n]
  {
    var n := |chunks| - 1;
    ConcatOfBoth(chunks[..n], [chunks[n]]);
    assert chunks == chunks[..n] + [chunks[n]];
    assert Concat([chunks[n]]) == chunks[n];
  }

  /** The state a text leaves, whatever pieces it came in. */
  function Captured(text: string, maxMessages: nat): State {
    State(Rest(text), Last(Lines(text), maxMessages), Lines(text))
  }

  lemma FedGoesOn(text: string, more: string, maxMessages: nat)
    ensures Fed(Captured(text, maxMessages), more, maxMessages) == Captured(text + more, maxMessages)
  {
    LinesOfMore(text, more);
    LastOfLast(Lines(text), Lines(Rest(text) + more), maxMessages);
  }

  /** However a text is cut into pieces: what is pending is the text after its last newline, every
      complete line was emitted once and in order, and the ring holds the last of them. */
  lemma {:induction false} ChunkingDoesNotMatter(chunks: seq<string>, maxMessages: nat)
    ensures var text := Concat(chunks);
      FedAll(chunks, maxMessages) == Captured(text, maxMessages) && IsSplit(text, Lines(text), Rest(text))
  {
    LinesSplit(Concat(chunks));
    if chunks != [] {
      var n := |chunks| - 1;
      ChunkingDoesNotMatter(chunks[..n], maxMessages);
      ConcatOfLast(chunks);
      FedGoesOn(Concat(chunks[..n]), chunks[n], maxMessages);
    }
  }

  lemma CutOne(lines: seq<string>, pending: string)
    requires NEWLINE in pending
    ensures var k := FirstNewline(pending);
      && lines + Lines(pending) == (lines + [pending[..k] + [NEWLINE]]) + Lines(pending[k + 1..])
      && Rest(pending) == Rest(pending[k + 1..])
  {
    var k := FirstNewline(pending);
    assert pending[..k + 1] == pending[..k] + [NEWLINE];
    Regroup(lines, [pending[..k] + [NEWLINE]], Lines(pending[k + 1..]));
  }

  lemma AppendOne(before: seq<string>, lines: seq<string>, i: nat, n: nat)
    requires i < |lines|
    ensures before + lines[..i + 1] == (before + lines[..i]) + [lines[i]]
    ensures Last(Last(before + lines[..i], n) + [lines[i]], n) == Last(before + lines[..i + 1], n)
  {
    assert before + lines[..i + 1] == (before + lines[..i]) + [lines[i]];
    LastOfLast(before + lines[..i], [lines[i]], n);
  }

  /** What Python's slice [-n:] takes: the last n, everything for 0, and for a negative n all but
      the first -n. */
  function Tail<T>(s: seq<T>, n: int): seq<T> {
    if n > 0 then Last(s, n)
    else if -n <= |s| then s[-n..] else []
  }

  class ConsoleCapture {
    const maxMessages: nat
    var pending: string
    var messages: seq<string>
    var emitted: seq<string>

    ghost predicate Valid()
      reads this
    {
      NEWLINE !in pending && |messages| <= maxMessages
    }

    ghost function Current(): State
      reads this
    {
      State(pending, messages, emitted)
    }

    constructor (maxMessages: nat)
      ensures Valid() && Current() == EMPTY && this.maxMessages == maxMessages
    {
      this.maxMessages := maxMessages;
      pending, messages, emitted := "", [], [];
    }

    /** The first half of `feed`: cuts off the complete lines. */
    method CutLines(text: string) returns (lines: seq<string>)
      modifies `pending
      ensures lines == Lines(old(pending) + text) && pending == Rest(old(pending) + text)
      ensures NEWLINE !in pending
    {
      pending := pending + text;
      lines := [];
      while NEWLINE in pending
        invariant lines + Lines(pending) == Lines(old(pending) + text)
        invariant Rest(pending) == Rest(old(pending) + text)
        decreases |pending|
      {
        var k := FirstNewline(pending);
        CutOne(lines, pending);
        lines := lines + [pending[..k] + [NEWLINE]];
        pending := pending[k + 1..];
      }
    }

    /** The second half: appends them one by one. */
    method AppendAll(lines: seq<string>)
      requires |messages| <= maxMessages
      modifies `messages, `emitted
      ensures messages == Last(old(messages) + lines, maxMessages) && emitted == old(emitted) + lines
    {
      for i := 0 to |lines|
        invariant |messages| <= maxMessages
        invariant messages == Last(old(messages) + lines[..i], maxMessages)
        invariant emitted == old(emitted) + lines[..i]
      {
        AppendOne(old(messages), lines, i, maxMessages);
        AppendOne(old(emitted), lines, i, maxMessages);
        Append(lines[i]);
      }
      assert lines[..|lines|] == lines;
    }

    /** `feed`. */
    method Feed(text: string)
      requires Valid()
      modifies this
      ensures Valid() && Current() == Fed(old(Current()), text, maxMessages)
    {
      if text == "" {
        assert pending + text == pending;
        assert emitted + [] == emitted;
        assert messages + [] == messages;
        return;
      }
      var lines := CutLines(text);
      AppendAll(lines);
    }

    /** `_append`: the ring drops its oldest message when it is full. */
    method Append(text: string)
      requires |messages| <= maxMessages
      modifies `messages, `emitted
      ensures messages == Last(old(messages) + [text], maxMessages) && |messages| <= maxMessages
      ensures emitted == old(emitted) + [text]
    {
      messages := messages + [text];
      if |messages| > maxMessages {
        messages := messages[1..];
      }
      emitted := emitted + [text];
    }

    /** `text`. */
    method Text(nlines: int) returns (text: string)
      ensures text == Concat(Tail(messages, nlines))
    {
      var msgs := if nlines > 0 then (if nlines < |messages| then messages[|messages| - nlines..] else messages)
                  else if -nlines <= |messages| then messages[-nlines..] else [];
      text := "";
      for i := 0 to |msgs|
        invariant text == Concat(msgs[..i])
      {
        ConcatOfBoth(msgs[..i], [msgs[i]]);
        assert msgs[..i + 1] == msgs[..i] + [msgs[i]];
        assert Concat([msgs[i]]) == msgs[i];
        text := text + msgs[i];
      }
      assert msgs[..|msgs|] == msgs;
    }
  }

  ghost predicate EndsIn(text: string, tail: string) {
    |tail| <= |text| && text[|text| - |tail|..] == tail
  }

  lemma LastLinesEndText(text: string, lines: seq<string>, rest: string, m: nat)
    requires IsSplit(text, lines, rest)
    ensures EndsIn(text, Concat(Last(lines, m)) + rest)
  {
    var k := |lines| - |Last(lines, m)|;
    assert lines == lines[..k] + Last(lines, m);
    ConcatOfBoth(lines[..k], Last(lines, m));
    Regroup(Concat(lines[..k]), Concat(Last(lines, m)), rest);
  }

  /** Reading back n > 0 lines gives the last complete lines of everything fed, at most n of them
      and at most as many as the ring holds; with the unfinished line they end the text. */
  lemma ReadBack(chunks: seq<string>, maxMessages: nat, n: nat)
    requires n > 0
    ensures var text := Concat(chunks); var s := FedAll(chunks, maxMessages);
      var m := if maxMessages < n then maxMessages else n;
      Tail(s.messages, n) == Last(Lines(text), m) && EndsIn(text, Concat(Tail(s.messages, n)) + s.pending)
  {
    var text := Concat(chunks);
    ChunkingDoesNotMatter(chunks, maxMessages);
    LastTwice(Lines(text), maxMessages, n);
    LastLinesEndText(text, Lines(text), Rest(text), if maxMessages < n then maxMessages else n);
  }

  /** The last n of the complete lines; none for an n of 0 or below. */
  function LastLines(text: string, n: int): seq<string> {
    if n <= 0 then [] else Last(Lines(text), n)
  }

  /** The smaller of the ring's size and the number of complete lines: what the ring holds. */
  function Held(text: string, maxMessages: nat): nat {
    if |Lines(text)| < maxMessages then |Lines(text)| else maxMessages
  }

  lemma TailOfRing(lines: seq<string>, maxMessages: nat, n: int)
    ensures var ring := Last(lines, maxMessages);
      Tail(ring, n) == Last(lines, if n > 0 then (if maxMessages < n then maxMessages else n)
                                   else if -n <= |ring| then |ring| + n else 0)
  {
    if n > 0 {
      LastTwice(lines, maxMessages, n);
    }
  }

  /** What is read back for any n: for a positive one the last lines as far as the ring holds them, for
      0 all the ring holds, and for a negative one all of it but the first -n. */
  lemma ReadBackAny(chunks: seq<string>, maxMessages: nat, n: int)
    ensures var text := Concat(chunks); var back := Tail(FedAll(chunks, maxMessages).messages, n);
      var held := Held(text, maxMessages);
      && back == Last(Lines(text), if n > 0 then (if maxMessages < n then maxMessages else n)
                                   else if -n <= held then held + n else 0)
  {
    var lines := Lines(Concat(chunks));
    ChunkingDoesNotMatter(chunks, maxMessages);
    TailOfRing(lines, maxMessages, n);
    LastEnds(lines, maxMessages);
  }

  lemma {:induction false} SameText(a: seq<string>, b: seq<string>)
    requires forall line <- a :: IsLine(line)
    requires forall line <- b :: IsLine(line)
    ensures Concat(a) == Concat(b) <==> a == b
  {
    if Concat(a) == Concat(b) {
      assert Concat(a) == Concat(a) + "" && Concat(b) == Concat(b) + "";
      OneSplit(Concat(a), a, "");
      OneSplit(Concat(b), b, "");
    }
  }

  /** Reading back n lines gives exactly the last n lines of everything fed when n is positive and the
      ring is large enough for them, or for all lines there are; and for n of 0 or below, where that is
      nothing, when the ring holds no more than -n lines. */
  lemma ReadsLastLinesExactlyWhen(chunks: seq<string>, maxMessages: nat, n: int)
    ensures var text := Concat(chunks);
      Concat(Tail(FedAll(chunks, maxMessages).messages, n)) == Concat(LastLines(text, n)) <==>
      if n > 0 then n <= maxMessages || |Lines(text)| <= maxMessages else Held(text, maxMessages) <= -n
  {
    var text := Concat(chunks);
    var back := Tail(FedAll(chunks, maxMessages).messages, n);
    ReadBackAny(chunks, maxMessages, n);
    LinesSplit(text);
    SameText(back, LastLines(text, n));
    var m := if n <= 0 then 0 else n;
    assert |LastLines(text, n)| == if |Lines(text)| < m then |Lines(text)| else m;
  }
}
