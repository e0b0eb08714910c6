/** A reader of JSON texts (RFC 8259, with Python's `NaN`, `Infinity` and `-Infinity`), and that it reads
    back what the writer wrote. */
module JsonReading {
  import opened Options
  import opened JsonText

  // ---- reading ------------------------------------------------------------------------------

  predicate Blank(c: char) { c == ' ' || c == '\t' || c == '\n' || c == '\r' }

  function Skip(s: string): (r: string)
    ensures |r| <= |s|
  {
    if s != "" && Blank(s[0]) then Skip(s[1..]) else s
  }

  predicate IsDigit(c: char) { '0' <= c <= '9' }

  /** The value of a hexadecimal digit, or 16. */
  function HexValue(c: char): nat {
    if IsDigit(c) then c as int - '0' as int
    else if 'a' <= c <= 'f' then c as int - 'a' as int + 10
    else if 'A' <= c <= 'F' then c as int - 'A' as int + 10
    else 16
  }

  /** The character of the four digits of a `\u` escape; half of a surrogate pair is none. */
  function HexChar(s: string): Option<char>
    requires |s| >= 4
  {
    var a, b, c, d := HexValue(s[0]), HexValue(s[1]), HexValue(s[2]), HexValue(s[3]);
    var code := ((a * 16 + b) * 16 + c) * 16 + d;
    if a < 16 && b < 16 && c < 16 && d < 16 && (code < 0xD800 || 0xE000 <= code <= 0xFFFF) then Some(code as char)
    else None
  }

  /** The character of an escape with one letter. */
  function Unescaped(c: char): Option<char> {
    if c == '"' || c == '\\' || c == '/' then Some(c)
    else if c == 'b' then Some(8 as char)
    else if c == 'f' then Some(12 as char)
    else if c == 'n' then Some('\n')
    else if c == 'r' then Some('\r')
    else if c == 't' then Some('\t')
    else None
  }

  /** One character of a string, escaped or not, and what follows it. */
  function NextChar(s: string): (r: Option<(char, string)>)
    requires s != ""
    ensures r.Some? ==> |r.value.1| < |s|
  {
    if s[0] as int < 32 then None
    else if s[0] != '\\' then Some((s[0], s[1..]))
    else if |s| >= 6 && s[1] == 'u' then
      match HexChar(s[2..6]) case Some(c) => Some((c, s[6..])) case None => None
    else if |s| >= 2 then
      match Unescaped(s[1]) case Some(c) => Some((c, s[2..])) case None => None
    else None
  }

  /** A string behind its opening quote, and what follows its closing one. */
  function StringBody(s: string): (r: Option<(string, string)>)
    ensures r.Some? ==> |r.value.1| < |s|
    decreases |s|
  {
    if s == "" then None
    else if s[0] == '"' then Some(("", s[1..]))
    else
      match NextChar(s)
      case None => None
      case Some((c, rest)) =>
        match StringBody(rest)
        case None => None
        case Some((t, after)) => Some(([c] + t, after))
  }

  predicate TokenChar(c: char) { IsDigit(c) || 'a' <= c <= 'z' || 'A' <= c <= 'Z' || c == '+' || c == '-' || c == '.' }

  /** The longest run of token characters. */
  function Token(s: string): (t: string)
    ensures |t| <= |s|
  {
    if s == "" || !TokenChar(s[0]) then "" else [s[0]] + Token(s[1..])
  }

  /** Decimal digits without a leading zero. */
  predicate IsNatText(s: string) {
    s != "" && (forall i :: 0 <= i < |s| ==> IsDigit(s[i])) && (|s| > 1 ==> s[0] != '0')
  }

  function NatOf(s: string): nat
    requires forall i :: 0 <= i < |s| ==> IsDigit(s[i])
  {
    if s == "" then 0 else NatOf(s[..|s| - 1]) * 10 + HexValue(s[|s| - 1])
  }

  function Scalar(t: string): Option<Json> {
    if t == "null" then Some(Null)
    else if t == "true" then Some(Bool(true))
    else if t == "false" then Some(Bool(false))
    else if IsNatText(t) then Some(Int(NatOf(t)))
    else if t != "" && t[0] == '-' && IsNatText(t[1..]) then Some(Int(0 - NatOf(t[1..])))
    else if IsFloatText(t) then Some(Float(t))
    else None
  }

  /** One value at the front of a text, and what follows it. */
  function Value(s: string): (r: Option<(Json, string)>)
    ensures r.Some? ==> |r.value.1| < |s|
    decreases |s|, 0
  {
    if s == "" then None
    else if s[0] == '"' then
      match StringBody(s[1..]) case Some((t, rest)) => Some((Str(t), rest)) case None => None
    else if s[0] == '[' then
      var inside := Skip(s[1..]);
      if inside != "" && inside[0] == ']' then Some((List([]), inside[1..]))
      else match Items(inside) case Some((items, rest)) => Some((List(items), rest)) case None => None
    else if s[0] == '{' then
      var inside := Skip(s[1..]);
      if inside != "" && inside[0] == '}' then Some((Dict([]), inside[1..]))
      else match Members(inside) case Some((members, rest)) => Some((Dict(members), rest)) case None => None
    else
      var t := Token(s);
      match Scalar(t) case Some(j) => if t == "" then None else Some((j, s[|t|..])) case None => None
  }

  /** The items of a list up to its closing bracket. */
  function Items(s: string): (r: Option<(seq<Json>, string)>)
    ensures r.Some? ==> |r.value.1| < |s|
    decreases |s|, 1
  {
    match Value(s)
    case None => None
    case Some((j, behind)) =>
      var rest := Skip(behind);
      if rest == "" then None
      else if rest[0] == ']' then Some(([j], rest[1..]))
      else if rest[0] != ',' then None
      else match Items(Skip(rest[1..])) case Some((more, after)) => Some(([j] + more, after)) case None => None
  }

  /** The name of a member, and what follows its colon. */
  function Name(s: string): (r: Option<(string, string)>)
    ensures r.Some? ==> |r.value.1| < |s|
  {
    if s == "" || s[0] != '"' then None
    else
      match StringBody(s[1..])
      case None => None
      case Some((key, behind)) =>
        var rest := Skip(behind);
        if rest == "" || rest[0] != ':' then None else Some((key, Skip(rest[1..])))
  }

  /** The members of an object up to its closing brace. */
  function Members(s: string): (r: Option<(seq<Member>, string)>)
    ensures r.Some? ==> |r.value.1| < |s|
    decreases |s|, 1
  {
    match Name(s)
    case None => None
    case Some((key, at)) =>
      match Value(at)
      case None => None
      case Some((j, behind)) =>
        var rest := Skip(behind);
        if rest == "" then None
        else if rest[0] == '}' then Some(([Member(key, j)], rest[1..]))
        else if rest[0] != ',' then None
        else
          match Members(Skip(rest[1..]))
          case Some((more, after)) => Some(([Member(key, j)] + more, after))
          case None => None
  }

  /** A whole text. */
  function Load(s: string): Option<Json> {
    match Value(Skip(s)) case Some((j, rest)) => if Skip(rest) == "" then Some(j) else None case None => None
  }

  // ---- what is written is read back -------------------------------------------------------------

  lemma HexDigit(n: nat)
    requires n < 16
    ensures HexValue(Digit(n)) == n
  {
  }

  lemma CharReadBack(c: char, rest: string)
    ensures EscapedChar(c) != "" && EscapedChar(c)[0] != '"'
    ensures NextChar(EscapedChar(c) + rest) == Some((c, rest))
  {
    var e := EscapedChar(c);
    var s := e + rest;
    assert s[|e|..] == rest && s[0] == e[0];
    if |e| == 2 {
      assert s[1] == e[1];
      assert s[2..] == rest;
    } else if |e| == 6 {
      assert s[1] == e[1] && s[2..6] == e[2..6] && s[6..] == rest;
      assert e[2..6] == "00" + [Digit(c as int / 16), Digit(c as int % 16)];
      HexDigit(c as int / 16);
      HexDigit(c as int % 16);
    }
  }

  lemma QuoteBehind(a: string, b: string, rest: string)
    ensures a + b + "\"" + rest == a + (b + "\"" + rest)
  {
  }

  lemma EscapedIs(t: string, rest: string)
    ensures if t == "" then Escaped(t) + "\"" + rest == "\"" + rest
            else Escaped(t) + "\"" + rest == EscapedChar(t[0]) + (Escaped(t[1..]) + "\"" + rest)
  {
    if t != "" {
      assert Escaped(t) == EscapedChar(t[0]) + Escaped(t[1..]);
      QuoteBehind(EscapedChar(t[0]), Escaped(t[1..]), rest);
    }
  }

  lemma {:induction false} StringReadBack(t: string, rest: string)
    ensures StringBody(Escaped(t) + "\"" + rest) == Some((t, rest))
  {
    hide NextChar, EscapedChar, Escaped;
    EscapedIs(t, rest);
    if t == "" {
      assert ("\"" + rest)[1..] == rest;
    } else {
      var tail := Escaped(t[1..]) + "\"" + rest;
      StringReadBack(t[1..], rest);
      CharReadBack(t[0], tail);
      assert (EscapedChar(t[0]) + tail)[0] == EscapedChar(t[0])[0];
      assert [t[0]] + t[1..] == t;
    }
  }

  /** What follows a value ends its token. */
  predicate Ends(rest: string) { rest == "" || !TokenChar(rest[0]) }

  lemma {:induction false} TokenReadBack(t: string, rest: string)
    requires (forall i :: 0 <= i < |t| ==> TokenChar(t[i])) && Ends(rest)
    ensures Token(t + rest) == t
  {
    if t == "" {
      assert t + rest == rest;
    } else {
      assert (t + rest)[1..] == t[1..] + rest;
      TokenReadBack(t[1..], rest);
    }
  }

  lemma {:induction false} DigitsReadBack(n: nat)
    ensures IsNatText(Digits(n)) && NatOf(Digits(n)) == n && (n > 0 ==> Digits(n)[0] != '0')
  {
    if n < 10 {
      HexDigit(n);
      assert Digits(n)[..0] == "";
    } else {
      DigitsReadBack(n / 10);
      HexDigit(n % 10);
      assert Digits(n)[..|Digits(n)| - 1] == Digits(n / 10);
    }
  }

  predicate IsScalar(j: Json) { j.Null? || j.Bool? || j.Int? || j.Float? }

  lemma NatIsToken(t: string)
    requires IsNatText(t)
    ensures forall i :: 0 <= i < |t| ==> TokenChar(t[i])
    ensures Scalar(t) == Some(Int(NatOf(t)))
  {
    assert IsDigit(t[0]);
  }

  lemma NegativeIsToken(t: string)
    requires IsNatText(t)
    ensures forall i :: 0 <= i < |"-" + t| ==> TokenChar(("-" + t)[i])
  {
    NatIsToken(t);
  }

  lemma NegativeScalar(t: string)
    requires IsNatText(t)
    ensures Scalar("-" + t) == Some(Int(0 - NatOf(t)))
  {
    var s := "-" + t;
    assert s[1..] == t && s[0] == '-' && !IsDigit(s[0]);
    assert !IsNatText(s);
    hide IsNatText, NatOf, IsFloatText, IsDigit;
  }

  lemma FloatCharIsToken(c: char)
    requires c in "0123456789+-.e"
    ensures TokenChar(c) && c != 'n' && c != 't' && c != 'f'
  {
  }

  /** A float's text is not an integer's. */
  lemma FloatIsNotInt(t: FloatText)
    ensures t != "" && !IsNatText(t) && (t[0] == '-' ==> !IsNatText(t[1..]))
  {
    if t == "NaN" || t == "Infinity" || t == "-Infinity" {
      assert !IsDigit(t[1]);
      assert t[0] == '-' ==> t[1..][0] == t[1];
    } else {
      var i :| 0 <= i < |t| && t[i] in ".e";
      assert !IsDigit(t[i]);
      if t[0] == '-' && i > 0 { assert t[1..][i - 1] == t[i]; }
    }
  }

  lemma NamesAreTokens()
    ensures forall i :: 0 <= i < 3 ==> TokenChar("NaN"[i])
    ensures forall i :: 0 <= i < 8 ==> TokenChar("Infinity"[i])
    ensures forall i :: 0 <= i < 9 ==> TokenChar("-Infinity"[i])
  {
  }

  lemma FloatIsToken(t: FloatText)
    ensures t != "" && forall i :: 0 <= i < |t| ==> TokenChar(t[i])
    ensures Scalar(t) == Some(Float(t))
  {
    FloatIsNotInt(t);
    hide IsNatText, NatOf, TokenChar;
    if t != "NaN" && t != "Infinity" && t != "-Infinity" {
      forall i | 0 <= i < |t| ensures TokenChar(t[i]) && t[i] != 'n' && t[i] != 't' && t[i] != 'f' {
        FloatCharIsToken(t[i]);
      }
      assert t[0] != 'n' && t[0] != 't' && t[0] != 'f';
    } else {
      NamesAreTokens();
    }
  }

  lemma DigitsAreSome(n: nat)
    ensures Digits(n) != ""
  {
  }

  lemma ScalarReadBack(j: Json)
    requires IsScalar(j)
    ensures Dump(j) != "" && forall i :: 0 <= i < |Dump(j)| ==> TokenChar(Dump(j)[i])
    ensures Scalar(Dump(j)) == Some(j)
  {
    hide Digits, NatOf, IsNatText, IsFloatText;
    match j
    case Null =>
    case Bool(_) =>
    case Int(n) =>
      DigitsReadBack(if n < 0 then -n else n);
      if n < 0 {
        NegativeIsToken(Digits(-n));
        NegativeScalar(Digits(-n));
      } else {
        NatIsToken(Digits(n));
      }
      DigitsAreSome(if n < 0 then -n else n);
    case Float(t) => FloatIsToken(t);
  }

  /** No value begins with a blank or with a closing bracket. */
  lemma DumpFront(j: Json)
    ensures Dump(j) != "" && !Blank(Dump(j)[0]) && Dump(j)[0] != ']'
  {
    if IsScalar(j) {
      ScalarReadBack(j);
      assert TokenChar(Dump(j)[0]);
    }
  }

  lemma TokenValue(t: string, rest: string, j: Json)
    requires t != "" && TokenChar(t[0]) && Token(t + rest) == t && Scalar(t) == Some(j)
    ensures Value(t + rest) == Some((j, rest))
  {
    assert (t + rest)[0] == t[0] && (t + rest)[|t|..] == rest;
    hide Scalar, Token;
  }

  lemma ScalarValue(j: Json, rest: string)
    requires IsScalar(j) && Ends(rest)
    ensures Value(Dump(j) + rest) == Some((j, rest))
  {
    hide Dump, Scalar, Token, Value, Ends;
    ScalarReadBack(j);
    TokenReadBack(Dump(j), rest);
    TokenValue(Dump(j), rest, j);
  }

  lemma BehindQuote(t: string, rest: string)
    ensures var s := Quoted(t) + rest; s != "" && s[0] == '"' && StringBody(s[1..]) == Some((t, rest))
  {
    var s := Quoted(t) + rest;
    assert s[1..] == Escaped(t) + "\"" + rest;
    hide StringBody, Escaped;
    StringReadBack(t, rest);
  }

  lemma StringValue(t: string, rest: string)
    ensures Value(Quoted(t) + rest) == Some((Str(t), rest))
  {
    BehindQuote(t, rest);
    hide StringBody, Quoted;
  }

  lemma BehindSeparator(c: char, tail: string)
    requires !Blank(c) && Skip(tail) == tail
    ensures var s := [c, ' '] + tail; Skip(s) == s && Skip(s[1..]) == tail
  {
    var s := [c, ' '] + tail;
    assert s[1..] == " " + tail && (" " + tail)[1..] == tail;
  }

  lemma ListValue(items: seq<Json>, inside: string, rest: string)
    requires if items == [] then inside == "]" + rest
             else inside != "" && Skip(inside) == inside && inside[0] != ']' && Items(inside) == Some((items, rest))
    ensures Value("[" + inside) == Some((List(items), rest))
  {
    assert ("[" + inside)[1..] == inside;
    assert items == [] ==> inside[1..] == rest;
    hide Items;
  }

  lemma DictValue(members: seq<Member>, inside: string, rest: string)
    requires if members == [] then inside == "}" + rest
             else inside != "" && Skip(inside) == inside && inside[0] != '}' && Members(inside) == Some((members, rest))
    ensures Value("{" + inside) == Some((Dict(members), rest))
  {
    assert ("{" + inside)[1..] == inside;
    assert members == [] ==> inside[1..] == rest;
    hide Members;
  }

  /** A written value is read back as itself, whatever follows it. */
  lemma {:induction false} ReadsBack(j: Json, rest: string)
    requires Ends(rest)
    ensures Value(Dump(j) + rest) == Some((j, rest))
    decreases j, 0
  {
    hide Value, Items, Members, Ends;
    if IsScalar(j) {
      ScalarValue(j, rest);
    } else if j.Str? {
      StringValue(j.s, rest);
    } else if j.List? {
      var inside := DumpItems(j.items) + ("]" + rest);
      assert Dump(j) + rest == "[" + inside;
      if j.items != [] { ItemsReadBack(j.items, rest); } else { assert inside == "]" + rest; }
      ListValue(j.items, inside, rest);
    } else {
      var inside := DumpMembers(j.members) + ("}" + rest);
      assert Dump(j) + rest == "{" + inside;
      if j.members != [] { MembersReadBack(j.members, rest); } else { assert inside == "}" + rest; }
      DictValue(j.members, inside, rest);
    }
  }

  lemma LastItem(j: Json, s: string, rest: string)
    requires Value(s) == Some((j, "]" + rest))
    ensures Items(s) == Some(([j], rest))
  {
    assert ("]" + rest)[1..] == rest;
    hide Value;
  }

  lemma ItemBefore(j: Json, s: string, tail: string, more: seq<Json>, rest: string)
    requires Value(s) == Some((j, [',', ' '] + tail)) && Skip(tail) == tail && Items(tail) == Some((more, rest))
    ensures Items(s) == Some(([j] + more, rest))
  {
    hide Value, Skip;
    BehindSeparator(',', tail);
  }

  lemma ItemsAre(items: seq<Json>, rest: string)
    requires items != []
    ensures var s, more := DumpItems(items) + ("]" + rest), items[1..];
            s == Dump(items[0]) + if more == [] then "]" + rest else [',', ' '] + (DumpItems(more) + ("]" + rest))
  {
    assert |items| == 1 ==> DumpItems(items[1..]) == "";
    hide Dump;
  }

  lemma {:induction false} ItemsReadBack(items: seq<Json>, rest: string)
    requires items != []
    ensures var s := DumpItems(items) + ("]" + rest);
            s != "" && Skip(s) == s && s[0] != ']' && Items(s) == Some((items, rest))
    decreases items, 1
  {
    hide Value, Items, Dump, DumpItems;
    var s, more := DumpItems(items) + ("]" + rest), items[1..];
    DumpFront(items[0]);
    ItemsAre(items, rest);
    assert items == [items[0]] + more;
    if more == [] {
      assert items == [items[0]];
      ReadsBack(items[0], "]" + rest);
      LastItem(items[0], s, rest);
    } else {
      var tail := DumpItems(more) + ("]" + rest);
      ReadsBack(items[0], [',', ' '] + tail);
      ItemsReadBack(more, rest);
      ItemBefore(items[0], s, tail, more, rest);
    }
  }

  lemma NameReadBack(key: string, tail: string)
    requires Skip(tail) == tail
    ensures var s := Quoted(key) + ([':', ' '] + tail);
            s != "" && s[0] == '"' && Name(s) == Some((key, tail))
  {
    BehindQuote(key, [':', ' '] + tail);
    BehindSeparator(':', tail);
    hide StringBody, Skip, Quoted;
  }

  lemma LastMember(m: Member, s: string, at: string, rest: string)
    requires Name(s) == Some((m.key, at)) && Value(at) == Some((m.value, "}" + rest))
    ensures Members(s) == Some(([m], rest))
  {
    assert ("}" + rest)[1..] == rest;
    hide Value, Name;
  }

  lemma MemberBefore(m: Member, s: string, at: string, tail: string, more: seq<Member>, rest: string)
    requires Name(s) == Some((m.key, at)) && Value(at) == Some((m.value, [',', ' '] + tail))
    requires Skip(tail) == tail && Members(tail) == Some((more, rest))
    ensures Members(s) == Some(([m] + more, rest))
  {
    hide Value, Name, Skip;
    BehindSeparator(',', tail);
  }

  lemma Regroup(a: string, b: string, c: string, d: string, e: string)
    ensures a + ": " + b + c + d + e == a + ([':', ' '] + (b + (c + (d + e))))
  {
  }

  lemma MembersAre(members: seq<Member>, rest: string)
    requires members != []
    ensures var s, m, more := DumpMembers(members) + ("}" + rest), members[0], members[1..];
            s == Quoted(m.key)
                 + ([':', ' '] + (Dump(m.value)
                                  + if more == [] then "}" + rest else [',', ' '] + (DumpMembers(more) + ("}" + rest))))
  {
    hide Dump, Quoted;
    var m, more := members[0], members[1..];
    var separator := if |members| == 1 then "" else ", ";
    assert |members| == 1 ==> DumpMembers(more) == "";
    assert DumpMembers(members) == Quoted(m.key) + ": " + Dump(m.value) + separator + DumpMembers(more);
    hide DumpMembers;
    Regroup(Quoted(m.key), Dump(m.value), separator, DumpMembers(more), "}" + rest);
    assert more == [] ==> separator + (DumpMembers(more) + ("}" + rest)) == "}" + rest;
  }

  lemma {:induction false} MembersReadBack(members: seq<Member>, rest: string)
    requires members != []
    ensures var s := DumpMembers(members) + ("}" + rest);
            s != "" && Skip(s) == s && s[0] != '}' && Members(s) == Some((members, rest))
    decreases members, 1
  {
    hide Value, Members, Name, Quoted, Dump, DumpMembers;
    var s, m, more := DumpMembers(members) + ("}" + rest), members[0], members[1..];
    var tail := DumpMembers(more) + ("}" + rest);
    var behind := if more == [] then "}" + rest else [',', ' '] + tail;
    DumpFront(m.value);
    MembersAre(members, rest);
    ReadsBack(m.value, behind);
    NameReadBack(m.key, Dump(m.value) + behind);
    assert members == [m] + more;
    if more == [] {
      assert members == [m];
      LastMember(m, s, Dump(m.value) + behind, rest);
    } else {
      MembersReadBack(more, rest);
      MemberBefore(m, s, Dump(m.value) + behind, tail, more, rest);
    }
  }

  /** Whatever the writer writes, the reader reads it back: no two values have the same text. */
  lemma LoadDump(j: Json)
    ensures Load(Dump(j)) == Some(j)
  {
    hide Value, Dump;
    DumpFront(j);
    ReadsBack(j, "");
    assert Dump(j) + "" == Dump(j);
  }
}
