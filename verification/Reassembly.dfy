/** The receive loops of the example client and node: bytes arrive in fragments
    of any size and a message is recognised by whether the buffer parses. */
module Reassembly {
  import opened Common

  // Text that is one JSON object

  /** How far a reader is into one JSON object: before it, inside it (bracket
      depth, inside a string, after a backslash), after it, or past repair. */
  datatype Scan = Before | Inside(depth: nat, text: bool, escape: bool) | After | Broken

  predicate Blank(c: char) {
    c == ' ' || c == '\t' || c == '\n' || c == '\r'
  }

  function Read(s: Scan, c: char): Scan {
    match s
    case Before => if c == '{' then Inside(1, false, false) else Broken
    case Inside(d, true, esc) =>
      if esc then Inside(d, true, false)
      else if c == '\\' then Inside(d, true, true)
      else if c == '\"' then Inside(d, false, false)
      else s
    case Inside(d, false, _) =>
      if c == '\"' then Inside(d, true, false)
      else if c == '{' || c == '[' then Inside(d + 1, false, false)
      else if c == '}' || c == ']' then (if d <= 1 then After else Inside(d - 1, false, false))
      else s
    case After => if Blank(c) then After else Broken
    case Broken => Broken
  }

  function ReadAll(s: Scan, text: string): Scan
    decreases |text|
  {
    if text == "" then s else ReadAll(Read(s, text[0]), text[1..])
  }

  lemma {:induction false} ReadAppend(s: Scan, a: string, b: string)
    ensures ReadAll(s, a + b) == ReadAll(ReadAll(s, a), b)
    decreases |a|
  {
    if a == "" {
      assert a + b == b;
    } else {
      assert (a + b)[1..] == a[1..] + b;
      ReadAppend(Read(s, a[0]), a[1..], b);
    }
  }

  lemma {:induction false} BrokenForever(text: string)
    ensures ReadAll(Broken, text) == Broken
  {
    if text != "" {
      BrokenForever(text[1..]);
    }
  }

  /** What is complete stays complete only under blanks. */
  lemma {:induction false} AfterNeedsBlanks(text: string)
    ensures ReadAll(After, text) == if forall c :: c in text ==> Blank(c) then After else Broken
  {
    if text != "" {
      assert text == [text[0]] + text[1..];
      if Blank(text[0]) {
        AfterNeedsBlanks(text[1..]);
      } else {
        BrokenForever(text[1..]);
      }
    }
  }

  /** A dumped message: one object (RFC 8259, section 4) from its opening to its
      closing brace, with no raw control byte NUL (section 7). */
  ghost predicate ObjectText(e: string) {
    && e != "" && e[0] == '{' && e[|e| - 1] == '}'
    && ReadAll(Before, e) == After
    && '\0' !in e
  }

  /** What every JSON parser guarantees about a text without NUL that starts with a
      brace: if it accepts the text, the text is one object and perhaps blanks
      after it. (A parser may take NUL for the end of its input.) */
  ghost predicate Sound<M(!new)>(parse: string -> Option<M>) {
    forall s :: parse(s).Some? && s != "" && s[0] == '{' && '\0' !in s ==> ReadAll(Before, s) == After
  }

  /** No dumped message is a proper prefix of another one: a proper prefix of an
      object is not complete. */
  lemma PrefixIncomplete(e: string, p: string)
    requires ObjectText(e) && p <= e && |p| < |e|
    ensures ReadAll(Before, p) != After
  {
    var rest := e[|p|..];
    assert e == p + rest && rest[|rest| - 1] == '}';
    ReadAppend(Before, p, rest);
    AfterNeedsBlanks(rest);
    assert '}' in rest;
  }

  lemma PrefixFree(a: string, b: string)
    requires ObjectText(a) && ObjectText(b) && a <= b
    ensures a == b
  {
    if |a| < |b| {
      PrefixIncomplete(b, a);
    }
  }

  // The loop

  /** The messages handled from a buffer and the fragments to come; a fragment is
      appended up to its first NUL. */
  function Receive<M>(parse: string -> Option<M>, buffer: string, fragments: seq<string>): seq<M>
    decreases |fragments|
  {
    if fragments == [] then []
    else
      var data := buffer + CString(fragments[0]);
      var m := parse(data);
      if m.Some? then [m.value] + Receive(parse, "", fragments[1..]) else Receive(parse, data, fragments[1..])
  }

  /** The loop itself, for the fragments `recv` gives before the connection ends. */
  method ReceiveLoop<M>(parse: string -> Option<M>, fragments: seq<string>) returns (handled: seq<M>)
    ensures handled == Receive(parse, "", fragments)
  {
    handled := [];
    var data := "";
    var i := 0;
    while i < |fragments|
      invariant 0 <= i <= |fragments|
      invariant handled + Receive(parse, data, fragments[i..]) == Receive(parse, "", fragments)
    {
      ghost var done := handled;
      assert fragments[i..][1..] == fragments[i + 1..];
      data := data + CString(fragments[i]);
      var m := parse(data);
      if m.Some? {
        assert done + ([m.value] + Receive(parse, "", fragments[i + 1..])) == done + [m.value] + Receive(parse, "", fragments[i + 1..]);
        handled := handled + [m.value];
        data := "";
      }
      i := i + 1;
    }
  }

  // What gets through

  ghost predicate AllObjects(texts: seq<string>) {
    forall t :: t in texts ==> ObjectText(t)
  }

  ghost predicate NoneEmpty(parts: seq<string>) {
    forall p :: p in parts ==> p != ""
  }

  /** The messages the texts stand for. */
  ghost predicate Encodes<M(!new)>(parse: string -> Option<M>, texts: seq<string>, messages: seq<M>) {
    |texts| == |messages| && forall i :: 0 <= i < |texts| ==> parse(texts[i]) == Some(messages[i])
  }

  /** How many messages end, one after the other, exactly where a fragment ends. */
  function Aligned(texts: seq<string>, buffer: string, fragments: seq<string>): nat
    decreases |fragments|
  {
    if texts == [] || fragments == [] then 0
    else
      var n := |buffer| + |fragments[0]|;
      if n == |texts[0]| then 1 + Aligned(texts[1..], "", fragments[1..])
      else if n < |texts[0]| then Aligned(texts, buffer + fragments[0], fragments[1..])
      else 0
  }

  /** A buffer that runs past the end of a message never parses again. */
  lemma {:induction false} StuckForever<M(!new)>(parse: string -> Option<M>, buffer: string, fragments: seq<string>)
    requires Sound(parse) && buffer != "" && buffer[0] == '{' && '\0' !in buffer && ReadAll(Before, buffer) == Broken
    ensures Receive(parse, buffer, fragments) == []
    decreases |fragments|
  {
    if fragments != [] {
      var more := CString(fragments[0]);
      var data := buffer + more;
      ReadAppend(Before, buffer, more);
      BrokenForever(more);
      assert data[0] == '{';
      StuckForever(parse, data, fragments[1..]);
    }
  }

  /** Once the buffer strictly extends a complete message by the beginning of the
      next one, no message is ever handled again. */
  lemma OverrunIsFatal<M(!new)>(parse: string -> Option<M>, e: string, extra: string, fragments: seq<string>)
    requires Sound(parse) && ObjectText(e) && extra != "" && extra[0] == '{' && '\0' !in extra
    ensures parse(e + extra).None?
    ensures Receive(parse, e + extra, fragments) == []
  {
    ReadAppend(Before, e, extra);
    AfterNeedsBlanks(extra);
    assert extra[0] in extra && !Blank(extra[0]);
    StuckForever(parse, e + extra, fragments);
  }

  lemma {:induction false} NoNulParts(parts: seq<string>)
    ensures '\0' !in Flatten(parts) <==> forall p :: p in parts ==> '\0' !in p
  {
    if parts != [] {
      NoNulParts(parts[1..]);
      assert parts == [parts[0]] + parts[1..];
    }
  }

  /** Two ways of cutting one string compare like their first pieces. */
  lemma SameString(e: string, later: string, data: string, tail: string)
    requires data + tail <= e + later
    ensures |data| == |e| ==> data == e && tail <= later
    ensures |data| < |e| ==> data <= e
    ensures |data| > |e| ==> e <= data && data[|e|..] <= later
  {
    var all := e + later;
    assert all[..|e|] == e && all[|e|..] == later;
    assert all[..|data|] == (data + tail)[..|data|] == data && all[|data|..|data + tail|] == (data + tail)[|data|..] == tail;
    if |data| < |e| {
      assert data == e[..|data|];
    } else if |data| > |e| {
      assert e == data[..|e|] && data[|e|..] == later[..|data| - |e|];
    }
  }

  lemma TakeFirst(buffer: string, parts: seq<string>)
    requires parts != []
    ensures buffer + Flatten(parts) == buffer + parts[0] + Flatten(parts[1..])
  {
    Regroup(buffer, parts[0], Flatten(parts[1..]));
  }

  lemma ObjectsNotEmpty(texts: seq<string>)
    requires AllObjects(texts)
    ensures NoneEmpty(texts)
  {
  }

  /** For every way of cutting the byte stream into fragments, and wherever the
      connection ends, the messages handled are exactly the leading ones that end
      where a fragment ends. */
  lemma {:induction false} HandledExactly<M(!new)>(
      parse: string -> Option<M>, texts: seq<string>, messages: seq<M>, buffer: string, fragments: seq<string>)
    requires Sound(parse) && AllObjects(texts) && Encodes(parse, texts, messages) && NoneEmpty(fragments)
    requires buffer + Flatten(fragments) <= Flatten(texts)
    requires texts != [] ==> |buffer| < |texts[0]|
    ensures Aligned(texts, buffer, fragments) <= |messages|
    ensures Receive(parse, buffer, fragments) == messages[..Aligned(texts, buffer, fragments)]
    decreases |fragments|
  {
    hide Sound, ReadAll, ObjectText, CString;
    ObjectsNotEmpty(texts);
    if fragments != [] {
      assert fragments[0] in fragments;
      if texts != [] {
        FirstFragment(parse, texts, messages, buffer, fragments);
        var e, data, rest := texts[0], buffer + fragments[0], fragments[1..];
        assert forall t :: t in texts[1..] ==> t in texts;
        assert forall p :: p in rest ==> p in fragments;
        if |data| == |e| {
          assert texts[1..] != [] ==> texts[1] in texts;
          HandledExactly(parse, texts[1..], messages[1..], "", rest);
        } else if |data| < |e| {
          HandledExactly(parse, texts, messages, data, rest);
        }
      }
    }
  }

  /** One fragment: it completes the message, or leaves it incomplete, or runs
      past its end. */
  lemma FirstFragment<M(!new)>(
      parse: string -> Option<M>, texts: seq<string>, messages: seq<M>, buffer: string, fragments: seq<string>)
    requires Sound(parse) && AllObjects(texts) && Encodes(parse, texts, messages)
    requires buffer + Flatten(fragments) <= Flatten(texts)
    requires texts != [] && fragments != [] && fragments[0] != "" && |buffer| < |texts[0]|
    ensures var e, data, rest := texts[0], buffer + fragments[0], fragments[1..];
            && CString(fragments[0]) == fragments[0]
            && (|data| == |e| ==> data == e && parse(data) == Some(messages[0]) && Flatten(rest) <= Flatten(texts[1..]))
            && (|data| < |e| ==> parse(data).None? && data + Flatten(rest) <= Flatten(texts))
            && (|data| > |e| ==> parse(data).None? && Receive(parse, data, rest) == [])
  {
    hide Sound, ReadAll, ObjectText, Receive, CString, Flatten;
    var e, data := texts[0], buffer + fragments[0];
    FirstBytes(texts, buffer, fragments);
    assert e in texts;
    if |data| < |e| {
      Unparsed(parse, e, data);
    } else if |data| > |e| {
      var extra := data[|e|..];
      assert forall t :: t in texts[1..] ==> t in texts;
      NextObject(texts[1..], extra);
      OverrunIsFatal(parse, e, extra, fragments[1..]);
    }
  }

  /** The same for the bytes alone. */
  lemma FirstBytes(texts: seq<string>, buffer: string, fragments: seq<string>)
    requires AllObjects(texts) && buffer + Flatten(fragments) <= Flatten(texts)
    requires texts != [] && fragments != [] && |buffer| < |texts[0]|
    ensures var e, data, rest, later := texts[0], buffer + fragments[0], fragments[1..], Flatten(texts[1..]);
            && CString(fragments[0]) == fragments[0] && '\0' !in data
            && (|data| == |e| ==> data == e && Flatten(rest) <= later)
            && (|data| < |e| ==> data <= e && data + Flatten(rest) <= Flatten(texts))
            && (|data| > |e| ==> data == e + data[|e|..] && data[|e|..] <= later)
  {
    hide ObjectText, CString;
    var e, data, rest, later := texts[0], buffer + fragments[0], fragments[1..], Flatten(texts[1..]);
    NoNulFragment(texts, buffer, fragments);
    CStringIdentity(fragments[0]);
    TakeFirst(buffer, fragments);
    assert Flatten(texts) == e + later;
    SameString(e, later, data, Flatten(rest));
  }

  /** A proper part of a message does not parse. */
  lemma Unparsed<M(!new)>(parse: string -> Option<M>, e: string, data: string)
    requires Sound(parse) && ObjectText(e) && data != "" && data <= e && |data| < |e|
    ensures parse(data).None?
  {
    PrefixIncomplete(e, data);
  }

  /** What follows a message starts like a message. */
  lemma NextObject(texts: seq<string>, extra: string)
    requires AllObjects(texts) && extra != "" && extra <= Flatten(texts)
    ensures extra[0] == '{'
  {
    assert texts[0] in texts;
  }

  lemma NoNulFragment(texts: seq<string>, buffer: string, fragments: seq<string>)
    requires AllObjects(texts) && fragments != [] && buffer + Flatten(fragments) <= Flatten(texts)
    ensures '\0' !in buffer + fragments[0]
  {
    NoNulParts(texts);
    NoNulParts(fragments);
    assert fragments[0] in fragments;
    assert forall c :: c in buffer + Flatten(fragments) ==> c in Flatten(texts);
    assert forall c :: c in Flatten(fragments) || c in buffer ==> c in buffer + Flatten(fragments);
  }

  // Fragments that span two messages

  function Length(parts: seq<string>, n: nat): nat
    requires n <= |parts|
  {
    if n == 0 then 0 else |parts[0]| + Length(parts[1..], n - 1)
  }

  /** How many messages are complete in the first n bytes of the stream. */
  function Complete(texts: seq<string>, n: nat): (k: nat)
    ensures k <= |texts|
  {
    if texts == [] || n < |texts[0]| then 0 else 1 + Complete(texts[1..], n - |texts[0]|)
  }

  /** Each of the first k messages ends where some fragment ends: no `recv` that
      completes one of them goes on into the next. */
  ghost predicate NoSpan(texts: seq<string>, k: nat, done: nat, fragments: seq<string>)
    requires k <= |texts|
  {
    forall i :: 0 < i <= k ==> EndsAtFragment(Length(texts, i), done, fragments)
  }

  ghost predicate EndsAtFragment(end: nat, done: nat, fragments: seq<string>) {
    exists j :: 0 <= j <= |fragments| && done + Length(fragments, j) == end
  }

  lemma EndsAtLater(end: nat, done: nat, fragments: seq<string>)
    requires fragments != [] && done < end
    ensures EndsAtFragment(end, done, fragments) <==> EndsAtFragment(end, done + |fragments[0]|, fragments[1..])
  {
    if EndsAtFragment(end, done, fragments) {
      var j :| 0 <= j <= |fragments| && done + Length(fragments, j) == end;
      assert done + |fragments[0]| + Length(fragments[1..], j - 1) == end;
    }
    if EndsAtFragment(end, done + |fragments[0]|, fragments[1..]) {
      var j :| 0 <= j <= |fragments[1..]| && done + |fragments[0]| + Length(fragments[1..], j) == end;
      assert done + Length(fragments, j + 1) == end;
    }
  }

  lemma {:induction false} AlignedIffNoSpan(texts: seq<string>, buffer: string, fragments: seq<string>)
    requires NoneEmpty(texts) && NoneEmpty(fragments)
    requires texts != [] ==> |buffer| < |texts[0]|
    ensures var k := Complete(texts, |buffer| + |Flatten(fragments)|);
            Aligned(texts, buffer, fragments) == k <==> NoSpan(texts, k, |buffer|, fragments)
    decreases |fragments|
  {
    if texts != [] && fragments != [] {
      var f, rest, n := fragments[0], fragments[1..], |buffer| + |fragments[0]|;
      var k := Complete(texts, |buffer| + |Flatten(fragments)|);
      assert f in fragments && forall p :: p in rest ==> p in fragments;
      assert forall t :: t in texts[1..] ==> t in texts;
      assert Length(texts, 1) == |texts[0]| + Length(texts[1..], 0);
      forall i | 0 < i <= |texts|
        ensures EndsAtFragment(Length(texts, i), |buffer|, fragments) <==> EndsAtFragment(Length(texts, i), n, rest)
      {
        assert Length(texts, i) == |texts[0]| + Length(texts[1..], i - 1);
        EndsAtLater(Length(texts, i), |buffer|, fragments);
      }
      if n == |texts[0]| {
        NextMessage(texts, k - 1, n, rest);
        assert texts[1..] != [] ==> texts[1] in texts;
        AlignedIffNoSpan(texts[1..], "", rest);
      } else if n < |texts[0]| {
        AlignedIffNoSpan(texts, buffer + f, rest);
      } else {
        assert !EndsAtFragment(Length(texts, 1), n, rest);
      }
    }
  }

  /** At the end of the first message the count can start again. */
  lemma NextMessage(texts: seq<string>, k: nat, n: nat, rest: seq<string>)
    requires k < |texts| && n == |texts[0]|
    ensures NoSpan(texts, k + 1, n, rest) <==> NoSpan(texts[1..], k, 0, rest)
  {
    var later := texts[1..];
    assert EndsAtFragment(Length(texts, 1), n, rest) by {
      assert Length(texts, 1) == n + Length(later, 0) && n + Length(rest, 0) == n;
    }
    if NoSpan(texts, k + 1, n, rest) {
      forall i | 0 < i <= k ensures EndsAtFragment(Length(later, i), 0, rest) {
        assert EndsAtFragment(Length(texts, i + 1), n, rest);
        NextEnd(texts, n, rest, i);
      }
    }
    if NoSpan(later, k, 0, rest) {
      forall i | 0 < i <= k + 1 ensures EndsAtFragment(Length(texts, i), n, rest) {
        if i > 1 {
          assert EndsAtFragment(Length(later, i - 1), 0, rest);
          NextEnd(texts, n, rest, i - 1);
        }
      }
    }
  }

  lemma NextEnd(texts: seq<string>, n: nat, rest: seq<string>, i: nat)
    requires texts != [] && n == |texts[0]| && i < |texts|
    ensures EndsAtFragment(Length(texts, i + 1), n, rest) <==> EndsAtFragment(Length(texts[1..], i), 0, rest)
  {
    assert Length(texts, i + 1) == n + Length(texts[1..], i);
    if EndsAtFragment(Length(texts, i + 1), n, rest) {
      var j :| 0 <= j <= |rest| && n + Length(rest, j) == Length(texts, i + 1);
      assert 0 + Length(rest, j) == Length(texts[1..], i);
    }
    if EndsAtFragment(Length(texts[1..], i), 0, rest) {
      var j :| 0 <= j <= |rest| && 0 + Length(rest, j) == Length(texts[1..], i);
      assert n + Length(rest, j) == Length(texts, i + 1);
    }
  }

  /** However the stream is cut and wherever the connection ends: the messages
      received in full are all handled, in order and once each, exactly when every
      one of them ends where a fragment ends. */
  lemma ReassemblyIff<M(!new)>(parse: string -> Option<M>, texts: seq<string>, messages: seq<M>, fragments: seq<string>)
    requires Sound(parse) && AllObjects(texts) && Encodes(parse, texts, messages) && NoneEmpty(fragments)
    requires Flatten(fragments) <= Flatten(texts)
    ensures var k := Complete(texts, |Flatten(fragments)|);
            Receive(parse, "", fragments) == messages[..k] <==> NoSpan(texts, k, 0, fragments)
    ensures Flatten(fragments) == Flatten(texts) ==> Complete(texts, |Flatten(fragments)|) == |texts|
  {
    hide Receive, Aligned, Complete, NoSpan, Sound, AllObjects, ReadAll, Flatten;
    ObjectsNotEmpty(texts);
    assert "" + Flatten(fragments) == Flatten(fragments);
    assert texts != [] ==> texts[0] in texts;
    HandledExactly(parse, texts, messages, "", fragments);
    AlignedIffNoSpan(texts, "", fragments);
    AllComplete(texts);
  }

  /** The whole stream holds every message. */
  lemma {:induction false} AllComplete(texts: seq<string>)
    ensures Complete(texts, |Flatten(texts)|) == |texts|
  {
    if texts != [] {
      AllComplete(texts[1..]);
    }
  }
}
