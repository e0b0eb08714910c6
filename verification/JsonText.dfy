/** `json.dumps(data, ensure_ascii=False, default=str)`, the text of every event's data. */
module JsonText {
  import opened EventStream

  /** The text of a float: Python's `repr` of it, which has a point or an exponent, or `NaN`, `Infinity`
      and `-Infinity`. */
  predicate IsFloatText(s: string) {
    || s == "NaN" || s == "Infinity" || s == "-Infinity"
    || ((forall i :: 0 <= i < |s| ==> s[i] in "0123456789+-.e") && exists i :: 0 <= i < |s| && s[i] in ".e")
  }

  type FloatText = s: string | IsFloatText(s) witness "NaN"

  /** A value as the writer sees it; `default=str` has turned anything else into a string. */
  datatype Json =
    | Null
    | Bool(b: bool)
    | Int(n: int)
    | Float(text: FloatText)
    | Str(s: string)
    | List(items: seq<Json>)
    | Dict(members: seq<Member>)

  datatype Member = Member(key: string, value: Json)

  function Digit(n: nat): char
    requires n < 16
  {
    "0123456789abcdef"[n]
  }

  function Digits(n: nat): string {
    if n < 10 then [Digit(n)] else Digits(n / 10) + [Digit(n % 10)]
  }

  /** One character inside a string. */
  function EscapedChar(c: char): string {
    if c == '"' then "\\\""
    else if c == '\\' then "\\\\"
    else if c == '\n' then "\\n"
    else if c == '\r' then "\\r"
    else if c == '\t' then "\\t"
    else if c as int == 8 then "\\b"
    else if c as int == 12 then "\\f"
    else if c as int < 32 then "\\u00" + [Digit(c as int / 16), Digit(c as int % 16)]
    else [c]
  }

  function Escaped(s: string): string {
    if s == "" then "" else EscapedChar(s[0]) + Escaped(s[1..])
  }

  function Quoted(s: string): string { "\"" + Escaped(s) + "\"" }

  function Dump(j: Json): string
    decreases j
  {
    match j
    case Null => "null"
    case Bool(b) => if b then "true" else "false"
    case Int(n) => if n < 0 then "-" + Digits(-n) else Digits(n)
    case Float(text) => text
    case Str(s) => Quoted(s)
    case List(items) => "[" + DumpItems(items) + "]"
    case Dict(members) => "{" + DumpMembers(members) + "}"
  }

  function DumpItems(items: seq<Json>): string
    decreases items
  {
    if items == [] then ""
    else Dump(items[0]) + (if |items| == 1 then "" else ", ") + DumpItems(items[1..])
  }

  function DumpMembers(members: seq<Member>): string
    decreases members
  {
    if members == [] then ""
    else
      Quoted(members[0].key) + ": " + Dump(members[0].value) + (if |members| == 1 then "" else ", ")
      + DumpMembers(members[1..])
  }

  // ---- no line end in any text ------------------------------------------------------------

  lemma OneLineConcat(a: string, b: string)
    requires OneLine(a) && OneLine(b)
    ensures OneLine(a + b)
  {
  }

  /** The writer's own punctuation. */
  lemma PunctuationIsOneLine()
    ensures OneLine("\"") && OneLine(", ") && OneLine(": ") && OneLine("") && OneLine("-")
    ensures OneLine("[") && OneLine("]") && OneLine("{") && OneLine("}")
    ensures OneLine("null") && OneLine("true") && OneLine("false")
  {
  }

  lemma {:induction false} EscapedIsOneLine(s: string)
    ensures OneLine(Escaped(s))
  {
    if s != "" {
      assert OneLine(EscapedChar(s[0]));
      EscapedIsOneLine(s[1..]);
      OneLineConcat(EscapedChar(s[0]), Escaped(s[1..]));
    }
  }

  lemma QuotedIsOneLine(s: string)
    ensures OneLine(Quoted(s))
  {
    hide OneLine;
    PunctuationIsOneLine();
    EscapedIsOneLine(s);
    OneLineConcat("\"", Escaped(s));
    OneLineConcat("\"" + Escaped(s), "\"");
  }

  lemma {:induction false} DigitsAreOneLine(n: nat)
    ensures OneLine(Digits(n))
  {
    if n >= 10 {
      DigitsAreOneLine(n / 10);
    }
  }

  lemma FloatIsOneLine(text: FloatText)
    ensures OneLine(text)
  {
    assert OneLine("NaN") && OneLine("Infinity") && OneLine("-Infinity");
  }

  /** Whatever the value, its text has no line end. */
  lemma {:induction false} DumpIsOneLine(j: Json)
    ensures OneLine(Dump(j))
    decreases j
  {
    hide OneLine;
    PunctuationIsOneLine();
    match j
    case Null =>
    case Bool(_) =>
    case Int(n) =>
      DigitsAreOneLine(if n < 0 then -n else n);
      if n < 0 { OneLineConcat("-", Digits(-n)); }
    case Float(text) => FloatIsOneLine(text);
    case Str(s) => QuotedIsOneLine(s);
    case List(items) =>
      ItemsAreOneLine(items);
      OneLineConcat("[", DumpItems(items));
      OneLineConcat("[" + DumpItems(items), "]");
    case Dict(members) =>
      MembersAreOneLine(members);
      OneLineConcat("{", DumpMembers(members));
      OneLineConcat("{" + DumpMembers(members), "}");
  }

  lemma {:induction false} ItemsAreOneLine(items: seq<Json>)
    ensures OneLine(DumpItems(items))
    decreases items
  {
    hide OneLine;
    PunctuationIsOneLine();
    if items != [] {
      DumpIsOneLine(items[0]);
      ItemsAreOneLine(items[1..]);
      var separator := if |items| == 1 then "" else ", ";
      OneLineConcat(Dump(items[0]), separator);
      OneLineConcat(Dump(items[0]) + separator, DumpItems(items[1..]));
    }
  }

  lemma {:induction false} MembersAreOneLine(members: seq<Member>)
    ensures OneLine(DumpMembers(members))
    decreases members
  {
    hide OneLine;
    PunctuationIsOneLine();
    if members != [] {
      var key, value := Quoted(members[0].key), Dump(members[0].value);
      var separator := if |members| == 1 then "" else ", ";
      QuotedIsOneLine(members[0].key);
      DumpIsOneLine(members[0].value);
      MembersAreOneLine(members[1..]);
      OneLineConcat(key, ": ");
      OneLineConcat(key + ": ", value);
      OneLineConcat(key + ": " + value, separator);
      OneLineConcat(key + ": " + value + separator, DumpMembers(members[1..]));
    }
  }
}
