/** Dumped JSON text, and that every dumped object is what the receive loops take
    a message to be. */
module JsonText {
  import opened Common
  import opened Reassembly

  /** A JSON value as the dump sees it; a number is the text it is printed as. */
  datatype Doc =
    | Null
    | Bool(b: bool)
    | Num(digits: string)
    | Str(s: string)
    | Arr(items: List)
    | Obj(members: Members)

  datatype List = Nil | Cons(head: Doc, tail: List)

  datatype Members = End | Member(key: string, value: Doc, rest: Members)

  /** Numbers are printed with digits, a sign, a point and an exponent only. */
  predicate Printed(d: Doc) {
    match d
    case Num(digits) => forall c :: c in digits ==> '0' <= c <= '9' || c in "+-.e"
    case Arr(items) => AllPrinted(items)
    case Obj(members) => MembersPrinted(members)
    case _ => true
  }

  predicate AllPrinted(l: List) {
    l.Nil? || (Printed(l.head) && AllPrinted(l.tail))
  }

  predicate MembersPrinted(m: Members) {
    m.End? || (Printed(m.value) && MembersPrinted(m.rest))
  }

  const HEX: string := "0123456789abcdef"

  /** Quotes, backslashes and control characters are escaped (RFC 8259, section 7). */
  function Escape(c: char): string {
    if c == '\"' then "\\\""
    else if c == '\\' then "\\\\"
    else if c == '\n' then "\\n"
    else if c == '\r' then "\\r"
    else if c == '\t' then "\\t"
    else if c < ' ' then "\\u00" + [HEX[c as int / 16], HEX[c as int % 16]]
    else [c]
  }

  function EscapeAll(s: string): string {
    if s == "" then "" else Escape(s[0]) + EscapeAll(s[1..])
  }

  function Quoted(s: string): string {
    "\"" + (EscapeAll(s) + "\"")
  }

  function Dump(d: Doc): string {
    match d
    case Null => "null"
    case Bool(b) => if b then "true" else "false"
    case Num(digits) => digits
    case Str(s) => Quoted(s)
    case Arr(items) => "[" + (DumpList(items) + "]")
    case Obj(members) => "{" + (DumpMembers(members) + "}")
  }

  function DumpList(l: List): string {
    match l
    case Nil => ""
    case Cons(d, Nil) => Dump(d)
    case Cons(d, tail) => Dump(d) + ("," + DumpList(tail))
  }

  function DumpMembers(m: Members): string {
    match m
    case End => ""
    case Member(k, d, End) => Quoted(k) + (":" + Dump(d))
    case Member(k, d, rest) => Quoted(k) + (":" + (Dump(d) + ("," + DumpMembers(rest))))
  }

  // Reading it back

  /** Reading the text inside an object leaves the reader where it was. */
  ghost predicate Balanced(text: string) {
    (forall d: nat :: d >= 1 ==> ReadAll(Inside(d, false, false), text) == Inside(d, false, false)) && '\0' !in text
  }

  lemma BalancedAppend(a: string, b: string)
    requires Balanced(a) && Balanced(b)
    ensures Balanced(a + b)
  {
    forall d: nat | d >= 1 ensures ReadAll(Inside(d, false, false), a + b) == Inside(d, false, false) {
      ReadAppend(Inside(d, false, false), a, b);
    }
  }

  /** Characters that mean nothing to the reader outside strings. */
  predicate Plain(c: char) {
    c != '\"' && c != '{' && c != '}' && c != '[' && c != ']' && c != '\0'
  }

  lemma {:induction false} PlainIsBalanced(text: string)
    requires forall c :: c in text ==> Plain(c)
    ensures Balanced(text)
  {
    if text != "" {
      assert Plain(text[0]) && forall c :: c in text[1..] ==> c in text;
      PlainIsBalanced(text[1..]);
      forall d: nat | d >= 1 ensures ReadAll(Inside(d, false, false), text) == Inside(d, false, false) {
        assert Read(Inside(d, false, false), text[0]) == Inside(d, false, false);
      }
      assert text == [text[0]] + text[1..];
    }
  }

  /** An escaped character never ends the string it is in. */
  lemma EscapeStays(d: nat, c: char)
    ensures ReadAll(Inside(d, true, false), Escape(c)) == Inside(d, true, false)
    ensures '\0' !in Escape(c)
  {
    var e := Escape(c);
    if |e| == 1 {
      assert e[1..] == "";
    } else if |e| == 2 {
      assert e[1..][1..] == "" && e[0] == '\\';
      assert ReadAll(Inside(d, true, true), e[1..]) == ReadAll(Inside(d, true, false), e[1..][1..]);
    } else {
      UnicodeStays(d, e);
    }
  }

  lemma UnicodeStays(d: nat, e: string)
    requires |e| == 6 && e[0] == '\\'
    requires forall k :: 2 <= k < 6 ==> e[k] != '\\' && e[k] != '\"'
    ensures ReadAll(Inside(d, true, false), e) == Inside(d, true, false)
  {
    var s, t := Inside(d, true, false), Inside(d, true, true);
    assert ReadAll(s, e) == ReadAll(t, e[1..]) == ReadAll(s, e[1..][1..]);
    assert e[1..][1..] == e[2..] && e[2..][1..] == e[3..] && e[3..][1..] == e[4..] && e[4..][1..] == e[5..] && e[5..][1..] == "";
    assert ReadAll(s, e[5..]) == s;
    assert ReadAll(s, e[4..]) == s;
    assert ReadAll(s, e[3..]) == s;
    assert ReadAll(s, e[2..]) == s;
  }

  lemma {:induction false} EscapedStays(d: nat, s: string)
    ensures ReadAll(Inside(d, true, false), EscapeAll(s)) == Inside(d, true, false)
    ensures '\0' !in EscapeAll(s)
  {
    if s != "" {
      EscapeStays(d, s[0]);
      EscapedStays(d, s[1..]);
      ReadAppend(Inside(d, true, false), Escape(s[0]), EscapeAll(s[1..]));
    }
  }

  lemma QuotedIsBalanced(s: string)
    ensures Balanced(Quoted(s))
  {
    forall d: nat | d >= 1 ensures ReadAll(Inside(d, false, false), Quoted(s)) == Inside(d, false, false) {
      EscapedStays(d, s);
      var text := EscapeAll(s) + "\"";
      assert Quoted(s)[1..] == text;
      ReadAppend(Inside(d, true, false), EscapeAll(s), "\"");
      assert ReadAll(Inside(d, true, false), "\"") == ReadAll(Inside(d, false, false), "\""[1..]) == Inside(d, false, false);
    }
    EscapedStays(1, s);
  }

  /** Brackets around balanced text are balanced. */
  lemma BracketsBalance(open: char, text: string, close: char)
    requires Balanced(text) && ((open == '[' && close == ']') || (open == '{' && close == '}'))
    ensures Balanced([open] + (text + [close]))
  {
    forall d: nat | d >= 1 ensures ReadAll(Inside(d, false, false), [open] + (text + [close])) == Inside(d, false, false) {
      BracketsAt(d, open, text, close);
    }
  }

  lemma BracketsAt(d: nat, open: char, text: string, close: char)
    requires d >= 1 && ((open == '[' && close == ']') || (open == '{' && close == '}'))
    requires ReadAll(Inside(d + 1, false, false), text) == Inside(d + 1, false, false)
    ensures ReadAll(Inside(d, false, false), [open] + (text + [close])) == Inside(d, false, false)
  {
    ReadOne(Inside(d, false, false), open, text + [close]);
    ReadAppend(Inside(d + 1, false, false), text, [close]);
    ReadOne(Inside(d + 1, false, false), close, "");
    assert [close] + "" == [close];
    hide ReadAll;
  }

  lemma ReadOne(s: Scan, c: char, rest: string)
    ensures ReadAll(s, [c] + rest) == ReadAll(Read(s, c), rest)
    ensures ReadAll(s, "") == s
  {
    assert ([c] + rest)[1..] == rest;
  }

  lemma {:induction false} DumpIsBalanced(d: Doc)
    requires Printed(d)
    ensures Balanced(Dump(d))
    decreases d
  {
    match d
    case Null => PlainIsBalanced("null");
    case Bool(b) => PlainIsBalanced(Dump(d));
    case Num(digits) => PlainIsBalanced(digits);
    case Str(s) => QuotedIsBalanced(s);
    case Arr(items) =>
      ListIsBalanced(items);
      BracketsBalance('[', DumpList(items), ']');
    case Obj(members) =>
      MembersAreBalanced(members);
      BracketsBalance('{', DumpMembers(members), '}');
  }

  lemma {:induction false} ListIsBalanced(l: List)
    requires AllPrinted(l)
    ensures Balanced(DumpList(l))
    decreases l
  {
    hide Balanced;
    PlainIsBalanced("");
    if l.Cons? {
      DumpIsBalanced(l.head);
      if l.tail.Cons? {
        ListIsBalanced(l.tail);
        PlainIsBalanced(",");
        BalancedAppend(",", DumpList(l.tail));
        BalancedAppend(Dump(l.head), "," + DumpList(l.tail));
      }
    }
  }

  lemma {:induction false} MembersAreBalanced(m: Members)
    requires MembersPrinted(m)
    ensures Balanced(DumpMembers(m))
    decreases m
  {
    hide Balanced;
    PlainIsBalanced("");
    if m.Member? {
      QuotedIsBalanced(m.key);
      DumpIsBalanced(m.value);
      PlainIsBalanced(":");
      if m.rest.End? {
        BalancedAppend(":", Dump(m.value));
        BalancedAppend(Quoted(m.key), ":" + Dump(m.value));
      } else {
        MembersAreBalanced(m.rest);
        PlainIsBalanced(",");
        BalancedAppend(",", DumpMembers(m.rest));
        BalancedAppend(Dump(m.value), "," + DumpMembers(m.rest));
        BalancedAppend(":", Dump(m.value) + ("," + DumpMembers(m.rest)));
        BalancedAppend(Quoted(m.key), ":" + (Dump(m.value) + ("," + DumpMembers(m.rest))));
      }
    }
  }

  /** Every dumped object, whatever its strings hold, is one whole object to the
      receive loops: quotes, braces and backslashes inside strings included. */
  lemma DumpIsObjectText(m: Members)
    requires MembersPrinted(m)
    ensures ObjectText(Dump(Obj(m)))
  {
    var text := Dump(Obj(m));
    MembersAreBalanced(m);
    var inner := DumpMembers(m);
    assert text == "{" + (inner + "}") && text[1..] == inner + "}";
    ReadAppend(Inside(1, false, false), inner, "}");
    assert ReadAll(Inside(1, false, false), "}") == ReadAll(After, "}"[1..]) == After;
  }
}
