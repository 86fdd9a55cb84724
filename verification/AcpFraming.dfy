/**
 * Newline framing of the agent's standard output, fed in arbitrary chunks.
 */
module AcpFraming {
  import opened Prelude

  function TrimLeft(s: string): string {
    if s != "" && Space(s[0]) then TrimLeft(s[1..]) else s
  }

  function TrimRight(s: string): string {
    if s != "" && Space(s[|s| - 1]) then TrimRight(s[..|s| - 1]) else s
  }

  function Trim(s: string): string { TrimRight(TrimLeft(s)) }

  /** Trimming takes white space off both ends and nothing else. */
  lemma TrimIs(s: string)
    ensures exists before, after :: Blank(before) && Blank(after) && s == before + Trim(s) + after
    ensures Trim(s) != "" ==> !Space(Trim(s)[0]) && !Space(Trim(s)[|Trim(s)| - 1])
  {
    TrimLeftIs(s);
    var before :| Blank(before) && s == before + TrimLeft(s);
    TrimRightIs(TrimLeft(s));
    var after :| Blank(after) && TrimLeft(s) == Trim(s) + after;
    assert s == before + Trim(s) + after;
  }

  lemma {:induction false} TrimLeftIs(s: string)
    ensures exists before :: Blank(before) && s == before + TrimLeft(s)
    ensures TrimLeft(s) != "" ==> !Space(TrimLeft(s)[0])
  {
    if s != "" && Space(s[0]) {
      TrimLeftIs(s[1..]);
      var before :| Blank(before) && s[1..] == before + TrimLeft(s[1..]);
      assert s == ([s[0]] + before) + TrimLeft(s);
    } else {
      assert s == "" + TrimLeft(s);
    }
  }

  lemma {:induction false} TrimRightIs(s: string)
    ensures exists after :: Blank(after) && s == TrimRight(s) + after
    ensures TrimRight(s) != "" ==> TrimRight(s)[0] == s[0] && !Space(TrimRight(s)[|TrimRight(s)| - 1])
    ensures TrimRight(s) <= s
  {
    if s != "" && Space(s[|s| - 1]) {
      var front := s[..|s| - 1];
      TrimRightIs(front);
      var after :| Blank(after) && front == TrimRight(front) + after;
      assert s == TrimRight(s) + (after + [s[|s| - 1]]);
    } else {
      assert s == TrimRight(s) + "";
    }
  }

  function IndexOfNewline(s: string): (r: Option<nat>)
    ensures r.Some? ==> r.value < |s| && s[r.value] == '\n' && '\n' !in s[..r.value]
    ensures r.None? ==> '\n' !in s
  {
    if s == "" then None
    else if s[0] == '\n' then Some(0)
    else match IndexOfNewline(s[1..])
      case None => None
      case Some(i) =>
        assert s[..i + 1] == [s[0]] + s[1..][..i];
        Some(i + 1)
  }

  /** The newline-terminated lines of a text, without their newlines. */
  function Lines(text: string): seq<string>
    decreases |text|
  {
    match IndexOfNewline(text)
    case None => []
    case Some(i) => [text[..i]] + Lines(text[i + 1..])
  }

  /** What follows the last newline. */
  function Tail(text: string): string
    decreases |text|
  {
    match IndexOfNewline(text)
    case None => text
    case Some(i) => Tail(text[i + 1..])
  }

  function Unlines(lines: seq<string>): string {
    if lines == [] then "" else lines[0] + "\n" + Unlines(lines[1..])
  }

  /** Lines and tail are the one way to cut a text at its newlines. */
  lemma {:induction false} CutUnique(text: string, lines: seq<string>, tail: string)
    ensures (text == Unlines(lines) + tail && '\n' !in tail && forall l | l in lines :: '\n' !in l)
            <==> (lines == Lines(text) && tail == Tail(text))
    decreases |text|
  {
    var index := IndexOfNewline(text);
    if index.Some? {
      var i := index.value;
      if lines != [] {
        CutUnique(text[i + 1..], lines[1..], tail);
        FirstLine(text, i, lines, tail);
        CutAt(text, i);
        assert lines == [lines[0]] + lines[1..];
        assert forall l | l in lines :: l == lines[0] || l in lines[1..];
      } else {
        assert Unlines(lines) + tail == tail && text[i] in text;
      }
    } else if lines != [] {
      var whole := Unlines(lines) + tail;
      assert whole[|lines[0]|] == '\n' && whole[|lines[0]|] in whole;
    } else {
      assert Unlines(lines) + tail == tail;
    }
  }

  lemma {:induction false} NewlineAt(s: string, i: nat)
    requires i < |s| && s[i] == '\n' && forall k | 0 <= k < i :: s[k] != '\n'
    ensures IndexOfNewline(s) == Some(i)
  {
    if i > 0 {
      NewlineAt(s[1..], i - 1);
    }
  }

  lemma FirstLine(text: string, i: nat, lines: seq<string>, tail: string)
    requires IndexOfNewline(text) == Some(i) && lines != []
    ensures text == Unlines(lines) + tail && '\n' !in lines[0] ==>
      lines[0] == text[..i] && text[i + 1..] == Unlines(lines[1..]) + tail
    ensures lines[0] == text[..i] && text[i + 1..] == Unlines(lines[1..]) + tail ==> text == Unlines(lines) + tail
  {
    var head, rest := lines[0], Unlines(lines[1..]) + tail;
    RegroupText(head + "\n", Unlines(lines[1..]), tail);
    if '\n' !in head { JoinedNewline(head, rest); }
    assert text == text[..i] + "\n" + text[i + 1..];
  }

  lemma RegroupText(a: string, b: string, c: string)
    ensures a + (b + c) == a + b + c
  {
  }

  lemma JoinedNewline(head: string, rest: string)
    requires '\n' !in head
    ensures var s := head + "\n" + rest;
      IndexOfNewline(s) == Some(|head|) && s[..|head|] == head && s[|head| + 1..] == rest
  {
    var s := head + "\n" + rest;
    assert forall k | 0 <= k < |head| :: s[k] == head[k] && head[k] in head;
    NewlineAt(s, |head|);
  }

  lemma CutAt(text: string, i: nat)
    requires IndexOfNewline(text) == Some(i)
    ensures Lines(text) == [text[..i]] + Lines(text[i + 1..]) && Tail(text) == Tail(text[i + 1..])
  {
  }

  /** Text already framed does not change when more arrives. */
  lemma {:induction false} FramingResumes(text: string, more: string)
    ensures Lines(text + more) == Lines(text) + Lines(Tail(text) + more)
    ensures Tail(text + more) == Tail(Tail(text) + more)
    decreases |text|
  {
    var index := IndexOfNewline(text);
    if index.Some? {
      FramingResumes(text[index.value + 1..], more);
      OneLineOn(text, more, index.value);
    } else {
      Regroup([], [], Lines(text + more));
    }
  }

  lemma OneLineOn(text: string, more: string, i: nat)
    requires IndexOfNewline(text) == Some(i)
    ensures var rest, coming := text[i + 1..], Lines(Tail(text) + more);
      && Tail(text) == Tail(rest) && Tail(text + more) == Tail(rest + more)
      && (Lines(rest + more) == Lines(rest) + coming ==> Lines(text + more) == Lines(text) + coming)
  {
    var first, rest, coming := [text[..i]], text[i + 1..], Lines(Tail(text) + more);
    CutAt(text, i);
    IndexKept(text, more, i);
    CutAt(text + more, i);
    Regroup(first, Lines(rest), coming);
  }

  lemma Regroup<T>(a: seq<T>, b: seq<T>, c: seq<T>)
    ensures a + (b + c) == a + b + c && [] + c == c && a + [] == a
  {
  }

  lemma IndexKept(text: string, more: string, i: nat)
    requires IndexOfNewline(text) == Some(i)
    ensures IndexOfNewline(text + more) == Some(i)
    ensures (text + more)[..i] == text[..i] && (text + more)[i + 1..] == text[i + 1..] + more
  {
    forall k | 0 <= k < i ensures (text + more)[k] != '\n' {
      assert text[..i][k] == text[k] && text[..i][k] in text[..i];
    }
    NewlineAt(text + more, i);
  }

  /** The message on a line, if trimmed it is not blank and parses. */
  function MessageOf<M>(line: string, parse: string -> Option<M>): seq<M> {
    var trimmed := Trim(line);
    if trimmed != "" && parse(trimmed).Some? then [parse(trimmed).value] else []
  }

  function Messages<M>(lines: seq<string>, parse: string -> Option<M>): seq<M> {
    if lines == [] then [] else MessageOf(lines[0], parse) + Messages(lines[1..], parse)
  }

  lemma {:induction false} MessagesAppend<M>(a: seq<string>, b: seq<string>, parse: string -> Option<M>)
    ensures Messages(a + b, parse) == Messages(a, parse) + Messages(b, parse)
  {
    if a == [] {
      assert a + b == b;
    } else {
      assert (a + b)[1..] == a[1..] + b;
      MessagesAppend(a[1..], b, parse);
    }
  }

  lemma FirstMessage<M>(text: string, i: nat, parse: string -> Option<M>)
    requires IndexOfNewline(text) == Some(i)
    ensures Messages(Lines(text), parse) == MessageOf(text[..i], parse) + Messages(Lines(text[i + 1..]), parse)
    ensures Tail(text) == Tail(text[i + 1..])
  {
    CutAt(text, i);
  }

  /** Moving the first line's message from what is to come to what has gone changes nothing. */
  lemma NextLine<M>(gone: seq<M>, text: string, i: nat, parse: string -> Option<M>)
    requires IndexOfNewline(text) == Some(i)
    ensures gone + Messages(Lines(text), parse) == (gone + MessageOf(text[..i], parse)) + Messages(Lines(text[i + 1..]), parse)
    ensures Tail(text) == Tail(text[i + 1..])
  {
    FirstMessage(text, i, parse);
    Regroup(gone, MessageOf(text[..i], parse), Messages(Lines(text[i + 1..]), parse));
  }

  function Concat(chunks: seq<string>): string {
    if chunks == [] then "" else Concat(chunks[..|chunks| - 1]) + chunks[|chunks| - 1]
  }

  class Framer<M> {
    var buf: string
    var dispatched: seq<M>

    constructor ()
      ensures buf == "" && dispatched == []
    {
      buf, dispatched := "", [];
    }

    /** Trim one line and dispatch it unless it is blank or not JSON. */
    method TakeLine(raw: string, parse: string -> Option<M>)
      modifies this`dispatched
      ensures dispatched == old(dispatched) + MessageOf(raw, parse)
    {
      var line := Trim(raw);
      if line == "" {
        return;
      }
      var msg := parse(line);
      if msg.None? {
        return;
      }
      dispatched := dispatched + [msg.value];
    }

    /** Cut the first line off the buffer and take it. */
    method TakeFirst(nl: nat, parse: string -> Option<M>)
      requires IndexOfNewline(buf) == Some(nl)
      modifies this
      ensures dispatched + Messages(Lines(buf), parse) == old(dispatched + Messages(Lines(buf), parse))
      ensures Tail(buf) == Tail(old(buf)) && |buf| < |old(buf)|
    {
      NextLine(dispatched, buf, nl, parse);
      var line := buf[..nl];
      buf := buf[nl + 1..];
      TakeLine(line, parse);
    }

    /** Take one chunk of output and dispatch every line it completes. */
    method Ingest(chunk: string, parse: string -> Option<M>)
      modifies this
      ensures dispatched == old(dispatched) + Messages(Lines(old(buf) + chunk), parse)
      ensures buf == Tail(old(buf) + chunk)
    {
      buf := buf + chunk;
      ghost var before, whole := dispatched, buf;
      var nl := IndexOfNewline(buf);
      while nl.Some?
        invariant nl == IndexOfNewline(buf)
        invariant before + Messages(Lines(whole), parse) == dispatched + Messages(Lines(buf), parse)
        invariant Tail(whole) == Tail(buf)
        decreases |buf|
      {
        TakeFirst(nl.value, parse);
        nl := IndexOfNewline(buf);
      }
    }

    /** However the output is cut into chunks, the messages are those of the whole text, in order. */
    method IngestAll(chunks: seq<string>, parse: string -> Option<M>)
      requires buf == "" && dispatched == []
      modifies this
      ensures dispatched == Messages(Lines(Concat(chunks)), parse) && buf == Tail(Concat(chunks))
    {
      for i := 0 to |chunks|
        invariant dispatched == Messages(Lines(Concat(chunks[..i])), parse)
        invariant buf == Tail(Concat(chunks[..i]))
      {
        var seen := Concat(chunks[..i]);
        Ingest(chunks[i], parse);
        assert chunks[..i + 1][..i] == chunks[..i];
        FramingResumes(seen, chunks[i]);
        MessagesAppend(Lines(seen), Lines(Tail(seen) + chunks[i]), parse);
      }
      assert chunks[..|chunks|] == chunks;
    }
  }
}
