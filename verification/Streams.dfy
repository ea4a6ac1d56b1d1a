/** The abstract value of one token stream: what a `TokenList` means, without
    its nodes. */
module Streams {
  import opened Common

  /** All tokens appended so far, the output cursor as an index (None is the
      null pointer) and the end-of-stream flag. */
  datatype Stream = Stream(tokens: seq<string>, cursor: Option<nat>, finished: bool) {

    ghost predicate Wf() {
      cursor.Some? ==> cursor.value < |tokens|
    }

    /** `nullptr` is ignored. A cursor that already ran off the end stays null. */
    function Append(token: Option<string>): Stream {
      if token.None? then this else this.(tokens := tokens + [CString(token.value)])
    }

    function Reset(): Stream {
      this.(cursor := if tokens == [] then None else Some(0))
    }

    function Finish(): Stream {
      this.(finished := true)
    }

    predicate HasMore() {
      cursor.Some? || (!finished && |tokens| > 0)
    }

    predicate CompletelyFinished() {
      finished && cursor.None?
    }

    /** The stream after the cursor moved one node on. */
    function Advance(): Stream
      requires Wf()
    {
      if cursor.None? then this
      else this.(cursor := if cursor.value + 1 < |tokens| then Some(cursor.value + 1) else None)
    }

    /** The token under the cursor. */
    function Current(): Option<string>
      requires Wf()
    {
      if cursor.None? then None else Some(tokens[cursor.value])
    }

    /** How many tokens the cursor still has in front of it. */
    function Remaining(): nat
      requires Wf()
    {
      if cursor.None? then 0 else |tokens| - cursor.value
    }

    /** The tokens the cursor still has in front of it. */
    function Ahead(): seq<string>
      requires Wf()
    {
      if cursor.None? then [] else tokens[cursor.value..]
    }
  }

  /** A new token leaves the cursor and the end mark alone, and so does a reset the
      tokens and the end mark, and an end mark the tokens and the cursor. */
  lemma OneFieldEach(s: Stream, token: string)
    ensures s.Append(None) == s
    ensures var r := s.Append(Some(token)); r.tokens == s.tokens + [CString(token)] && r.cursor == s.cursor && r.finished == s.finished
    ensures var r := s.Reset(); r.tokens == s.tokens && r.finished == s.finished && (r.cursor == Some(0) <==> s.tokens != [])
    ensures var r := s.Finish(); r.tokens == s.tokens && r.cursor == s.cursor && r.finished
  {
  }

  /** A list says it has more although no token can be read exactly when its cursor
      is null while it holds tokens and is not marked finished. */
  lemma MoreWithoutTokenIff(s: Stream)
    requires s.Wf()
    ensures s.HasMore() && s.Current().None? <==> s.cursor.None? && s.tokens != [] && !s.finished
    ensures s.Current().Some? ==> s.HasMore()
  {
  }

  const EMPTY: Stream := Stream([], None, false)

  ghost predicate AllWf(streams: map<string, Stream>) {
    forall id :: id in streams ==> streams[id].Wf()
  }

  // The operations of the id-to-list table, one id at a time.

  function AddToken(streams: map<string, Stream>, id: string, token: Option<string>): map<string, Stream> {
    streams[id := (if id in streams then streams[id] else EMPTY).Append(token)]
  }

  function MarkFinished(streams: map<string, Stream>, id: string): map<string, Stream> {
    if id in streams then streams[id := streams[id].Finish()] else streams
  }

  function ResetOutput(streams: map<string, Stream>, id: string): map<string, Stream> {
    if id in streams then streams[id := streams[id].Reset()] else streams
  }

  function ClearList(streams: map<string, Stream>, id: string): map<string, Stream> {
    streams - {id}
  }
}
