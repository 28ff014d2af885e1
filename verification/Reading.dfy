/**
 A reader of compact JSON texts (RFC 8259, sections 4 to 7), defined apart from the printer
 with its own literals, escapes and evaluation of digits, and the proof that it reads back
 every text the printer writes. So a printed text means its value, and no other.
 */
module Reading {
  import opened Text
  import opened Numbers
  import opened Json
  import opened Printing

  /** The float that a token spells. Like the spelling it is a parameter. */
  type FloatReader = string -> Float

  ghost predicate Undoes(float: FloatReader, spell: Spelling) {
    forall f: Float :: f.Valid() ==> float(spell(f)) == f
  }

  /** What was read off the front of a text, and what follows it. */
  datatype Result<+T> = Bad | Got(value: T, rest: string)

  /* ----- strings ----- */

  /** The character that an escape other than \u stands for. */
  function Unescape(c: char): Option<char> {
    match c
    case '\"' => Some('\U{22}')
    case '\\' => Some('\U{5C}')
    case '/' => Some('\U{2F}')
    case 'b' => Some('\U{8}')
    case 'f' => Some('\U{C}')
    case 'n' => Some('\U{A}')
    case 'r' => Some('\U{D}')
    case 't' => Some('\U{9}')
    case _ => None
  }

  function HexValue(c: char): (d: Option<nat>)
    ensures d.Some? ==> d.value < 16
  {
    if '0' <= c <= '9' then Some(c as int - '0' as int)
    else if 'a' <= c <= 'f' then Some(c as int - 'a' as int + 10)
    else if 'A' <= c <= 'F' then Some(c as int - 'A' as int + 10)
    else None
  }

  /** Four hex digits; one half of a surrogate pair is not read. */
  function ReadCode(s: string): (r: Result<char>)
    ensures r.Got? ==> |r.rest| < |s|
  {
    if |s| < 4 then Bad
    else
      match (HexValue(s[0]), HexValue(s[1]), HexValue(s[2]), HexValue(s[3]))
      case (Some(a), Some(b), Some(c), Some(d)) =>
        var code := ((16 * a + b) * 16 + c) * 16 + d;
        if 0xD800 <= code < 0xE000 then Bad else Got(code as char, s[4..])
      case _ => Bad
  }

  /** One character of a string; a control character must be escaped. */
  function ReadChar(s: string): (r: Result<char>)
    ensures r.Got? ==> |r.rest| < |s|
  {
    if s == "" || s[0] < ' ' then Bad
    else if s[0] != '\\' then Got(s[0], s[1..])
    else if |s| == 1 then Bad
    else if s[1] == 'u' then ReadCode(s[2..])
    else
      match Unescape(s[1])
      case None => Bad
      case Some(c) => Got(c, s[2..])
  }

  /** The rest of a string, up to its closing quote. */
  function ReadChars(s: string): (r: Result<string>)
    ensures r.Got? ==> |r.rest| < |s|
  {
    if s == "" then Bad
    else if s[0] == '\"' then Got("", s[1..])
    else
      match ReadChar(s)
      case Bad => Bad
      case Got(c, t) =>
        match ReadChars(t)
        case Bad => Bad
        case Got(cs, u) => Got([c] + cs, u)
  }

  /* ----- numbers ----- */

  /** How many number characters a text starts with. */
  function TokenLength(s: string): (n: nat)
    ensures n <= |s|
  {
    if s != "" && IsNumberChar(s[0]) then 1 + TokenLength(s[1..]) else 0
  }

  predicate AllDigits(s: string) {
    forall i :: 0 <= i < |s| ==> IsDigit(s[i])
  }

  /** Digits alone are an integer, after a minus sign a negative one; any other token is a float. */
  function TokenNumber(token: string, float: FloatReader): Number {
    if AllDigits(token) then PosInt(Evaluate(token))
    else if token[0] == '-' && AllDigits(token[1..]) then NegInt(-(Evaluate(token[1..]) as int))
    else FloatNum(float(token))
  }

  /* ----- values ----- */

  function ReadValue(s: string, float: FloatReader): (r: Result<Value>)
    ensures r.Got? ==> |r.rest| < |s|
    decreases |s|, 0
  {
    if s == "" then Bad
    else if s[0] == '\"' then
      match ReadChars(s[1..])
      case Bad => Bad
      case Got(cs, t) => Got(Str(cs), t)
    else if s[0] == '[' then
      if |s| > 1 && s[1] == ']' then Got(Arr([]), s[2..])
      else
        match ReadItems(s[1..], float)
        case Bad => Bad
        case Got(items, t) => Got(Arr(items), t)
    else if s[0] == '{' then
      if |s| > 1 && s[1] == '}' then Got(Obj([]), s[2..])
      else
        match ReadMembers(s[1..], float)
        case Bad => Bad
        case Got(ms, t) => Got(Obj(ms), t)
    else if "null" <= s then Got(Null, s[4..])
    else if "true" <= s then Got(Bool(true), s[4..])
    else if "false" <= s then Got(Bool(false), s[5..])
    else if TokenLength(s) == 0 then Bad
    else Got(Num(TokenNumber(s[..TokenLength(s)], float)), s[TokenLength(s)..])
  }

  /** The elements of an array that has some, up to its closing bracket. */
  function ReadItems(s: string, float: FloatReader): (r: Result<seq<Value>>)
    ensures r.Got? ==> |r.rest| < |s|
    decreases |s|, 1
  {
    match ReadValue(s, float)
    case Bad => Bad
    case Got(v, t) =>
      if t == "" then Bad
      else if t[0] == ']' then Got([v], t[1..])
      else if t[0] != ',' then Bad
      else
        match ReadItems(t[1..], float)
        case Bad => Bad
        case Got(vs, u) => Got([v] + vs, u)
  }

  /** The members of an object that has some, up to its closing brace. */
  function ReadMembers(s: string, float: FloatReader): (r: Result<seq<Member>>)
    ensures r.Got? ==> |r.rest| < |s|
    decreases |s|, 1
  {
    match ReadMember(s, float)
    case Bad => Bad
    case Got(m, t) =>
      if t == "" then Bad
      else if t[0] == '}' then Got([m], t[1..])
      else if t[0] != ',' then Bad
      else
        match ReadMembers(t[1..], float)
        case Bad => Bad
        case Got(ms, u) => Got([m] + ms, u)
  }

  function ReadMember(s: string, float: FloatReader): (r: Result<Member>)
    ensures r.Got? ==> |r.rest| < |s|
    decreases |s|, 0
  {
    if s == "" || s[0] != '\"' then Bad
    else
      match ReadChars(s[1..])
      case Bad => Bad
      case Got(key, t) =>
        if t == "" || t[0] != ':' then Bad
        else
          match ReadValue(t[1..], float)
          case Bad => Bad
          case Got(v, u) => Got(Member(key, v), u)
  }

  /** The value of a whole text. */
  function Read(s: string, float: FloatReader): Option<Value> {
    match ReadValue(s, float)
    case Bad => None
    case Got(v, rest) => if rest == "" then Some(v) else None
  }

  /* ----- the printer's strings are read back ----- */

  lemma HexDigitDenotes(d: nat)
    requires d < 16
    ensures HexValue(HexDigit(d)) == Some(d)
  {}

  lemma Behind(x: string, y: string, n: nat)
    requires n <= |x|
    ensures (x + y)[n..] == x[n..] + y
  {}

  lemma EscapedCharRead(c: char, rest: string)
    ensures ReadChar(EscapeChar(c) + rest) == Got(c, rest)
    ensures (EscapeChar(c) + rest)[0] != '\"'
  {
    var x := EscapeChar(c);
    var s := x + rest;
    assert s[|x|..] == rest;
    if c < ' ' && x[1] == 'u' {
      HexDigitDenotes(c as int / 16);
      HexDigitDenotes(c as int % 16);
      HexDigitDenotes(0);
      assert s[2..][0] == '0' && s[2..][1] == '0' && s[2..][2] == x[4] && s[2..][3] == x[5];
      assert s[2..][4..] == rest;
    }
  }

  lemma {:induction false} EscapedRead(a: string, rest: string)
    ensures ReadChars(Escape(a) + "\"" + rest) == Got(a, rest)
  {
    hide EscapeChar, ReadChar;
    var s := Escape(a) + "\"" + rest;
    if a == "" {
      assert s == "\"" + rest;
    } else {
      var tail := Escape(a[1..]) + "\"" + rest;
      assert s == EscapeChar(a[0]) + tail;
      EscapedCharRead(a[0], tail);
      EscapedRead(a[1..], rest);
      assert a == [a[0]] + a[1..];
    }
  }

  lemma StringRead(a: string, rest: string)
    ensures StringText(a) + rest != "" && (StringText(a) + rest)[0] == '\"'
    ensures ReadChars((StringText(a) + rest)[1..]) == Got(a, rest)
  {
    hide Escape, ReadChars;
    assert (StringText(a) + rest)[1..] == Escape(a) + "\"" + rest;
    EscapedRead(a, rest);
  }

  /** t stands for the one character c inside a string. */
  predicate Spells(t: string, c: char) {
    ReadChars(t + "\"") == Got([c], "")
  }

  lemma ClosesAtOnce(s: string)
    requires ReadChars(s) == Got("", "")
    ensures s == "\""
  {
    hide ReadChar;
    assert s[0] == '\"';
    assert s == [s[0]] + s[1..];
  }

  lemma SpelledOut(t: string, c: char)
    requires Spells(t, c)
    ensures t != "" && t[0] != '\"' && ReadChar(t + "\"") == Got(c, "\"")
  {
    hide ReadChar;
    var s := t + "\"";
    if s[0] != '\"' {
      var front, back := ReadChar(s), ReadChars(ReadChar(s).rest);
      assert [front.value] + back.value == [c];
      assert ([front.value] + back.value)[0] == c && back.value == "";
      ClosesAtOnce(front.rest);
    }
  }

  /** Each character of a string is written in its shortest spelling or, of several that short, the one in lower case. */
  lemma EscapeIsShortest(c: char, t: string)
    requires Spells(t, c)
    ensures |EscapeChar(c)| < |t| || EscapeChar(c) == t || (|EscapeChar(c)| == |t| && exists i :: 0 <= i < |t| && 'A' <= t[i] <= 'F')
  {
    SpelledOut(t, c);
    var s := t + "\"";
    if s[0] != '\\' {
      assert s[1..] == "\"" && t == [c];
    } else if s[1] == 'u' {
      assert s[2..][4..] == "\"";
      CodeIsShortest(c, t);
    } else {
      assert s[2..] == "\"";
      assert |s| == 3 && t == [t[0], t[1]];
    }
  }

  lemma DigitOf(x: char, d: nat)
    requires d < 16 && HexValue(x) == Some(d) && !('A' <= x <= 'F')
    ensures x == HexDigit(d)
  {}

  lemma SmallCode(a: nat, b: nat, d: nat, e: nat)
    requires e < 16
    ensures var code := ((16 * a + b) * 16 + d) * 16 + e;
            code < 32 ==> a == 0 && b == 0 && d == code / 16 && e == code % 16
  {}

  lemma LongEscape(c: char)
    ensures |EscapeChar(c)| <= 6
    ensures |EscapeChar(c)| == 6 ==> c < ' ' && EscapeChar(c) == "\\u00" + [HexDigit(c as int / 16), HexDigit(c as int % 16)]
  {}

  lemma ZeroDigit()
    ensures HexDigit(0) == '0'
  {}

  lemma CodeIsShortest(c: char, t: string)
    requires |t| == 6 && t[0] == '\\' && t[1] == 'u' && ReadCode((t + "\"")[2..]) == Got(c, "\"")
    ensures |EscapeChar(c)| < 6 || EscapeChar(c) == t || exists i :: 0 <= i < |t| && 'A' <= t[i] <= 'F'
  {
    hide EscapeChar, HexDigit;
    LongEscape(c);
    var s := (t + "\"")[2..];
    assert s[0] == t[2] && s[1] == t[3] && s[2] == t[4] && s[3] == t[5];
    if |EscapeChar(c)| >= 6 && forall i :: 0 <= i < |t| ==> !('A' <= t[i] <= 'F') {
      var a, b, d, e := HexValue(t[2]).value, HexValue(t[3]).value, HexValue(t[4]).value, HexValue(t[5]).value;
      SmallCode(a, b, d, e);
      DigitOf(t[2], a);
      DigitOf(t[3], b);
      DigitOf(t[4], d);
      DigitOf(t[5], e);
      ZeroDigit();
      assert t == "\\u00" + [t[4], t[5]];
    }
  }

  /* ----- and its numbers ----- */

  /** A value ends here: nothing follows, or something no number can contain. */
  predicate Ends(rest: string) {
    rest == "" || rest[0] == ',' || rest[0] == ']' || rest[0] == '}'
  }

  /** A number reads as far as its characters go. */
  lemma {:induction false} TokenEnd(x: string, rest: string)
    requires Ends(rest) && forall i :: 0 <= i < |x| ==> IsNumberChar(x[i])
    ensures TokenLength(x + rest) == |x|
  {
    if x == "" {
      assert x + rest == rest;
    } else {
      assert (x + rest)[1..] == x[1..] + rest;
      TokenEnd(x[1..], rest);
    }
  }

  lemma NumberTextRead(n: Number, spell: Spelling, float: FloatReader)
    requires SoundSpelling(spell) && Undoes(float, spell) && n.Valid()
    ensures var t := NumberText(n, spell);
            |t| > 0 && (forall i :: 0 <= i < |t| ==> IsNumberChar(t[i])) && TokenNumber(t, float) == n
  {
    hide Decimal, Evaluate;
    var t := NumberText(n, spell);
    match n {
      case PosInt(k) => DecimalDenotes(k);
      case NegInt(i) =>
        DecimalDenotes(-i);
        assert t[0] == '-' && !IsDigit(t[0]) && t[1..] == Decimal(-i);
      case FloatNum(f) =>
        assert IsFloatToken(t);
        var i :| 0 <= i < |t| && IsFloatMark(t[i]);
        assert i > 0 ==> t[1..][i - 1] == t[i];
    }
  }

  lemma NumberRead(n: Number, rest: string, spell: Spelling, float: FloatReader)
    requires SoundSpelling(spell) && Undoes(float, spell) && n.Valid() && Ends(rest)
    ensures ReadValue(NumberText(n, spell) + rest, float) == Got(Num(n), rest)
  {
    hide NumberText, TokenNumber, TokenLength;
    NumberTextRead(n, spell, float);
    var t := NumberText(n, spell);
    var s := t + rest;
    TokenEnd(t, rest);
    assert IsNumberChar(t[0]) && s[0] == t[0];
    assert s[..|t|] == t && s[|t|..] == rest;
  }

  lemma {:induction false} DecimalIsShortest(n: nat, t: string)
    requires t != "" && AllDigits(t) && Evaluate(t) == n
    ensures |Decimal(n)| < |t| || Decimal(n) == t
  {
    hide Digit, DigitValue;
    var front, d := t[..|t| - 1], DigitValue(t[|t| - 1]);
    LastDigit(t[|t| - 1]);
    if front != "" { DecimalIsShortest(n / 10, front); }
    assert t == front + [t[|t| - 1]];
  }

  lemma LastDigit(c: char)
    requires IsDigit(c)
    ensures DigitValue(c) < 10 && Digit(DigitValue(c)) == c
  {}

  /** Integers are written in the one shortest way: no sign but a minus, no leading zero. */
  lemma IntegerIsShortest(n: Number, t: string, spell: Spelling, float: FloatReader)
    requires t != "" && !n.FloatNum? && n.Valid() && TokenNumber(t, float) == n
    ensures |NumberText(n, spell)| < |t| || NumberText(n, spell) == t
  {
    hide Decimal, Evaluate;
    match n {
      case PosInt(k) => DecimalIsShortest(k, t);
      case NegInt(i) =>
        assert t == "-" + t[1..];
        if t[1..] != "" { DecimalIsShortest(-i, t[1..]); } else { NoDigits(); }
      case _ =>
    }
  }

  lemma NoDigits()
    ensures Evaluate("") == 0
  {}

  /* ----- and everything else ----- */

  /** No value starts with a closing bracket. */
  lemma PrintStart(v: Value, spell: Spelling)
    requires SoundSpelling(spell) && WellFormed(v)
    ensures |Print(v, spell)| > 0 && Print(v, spell)[0] != ']'
  {
    if v.Num? && v.n.FloatNum? { assert IsFloatToken(spell(v.n.f)); }
  }

  lemma Regroup(a: string, b: string, c: string, d: string)
    ensures (a + (b + c)) + d == a + (b + (c + d))
  {}

  /** Whatever value was printed, the reader finds it, and stops where the text of it ends. */
  lemma {:induction false} PrintedRead(v: Value, rest: string, spell: Spelling, float: FloatReader)
    requires SoundSpelling(spell) && Undoes(float, spell) && WellFormed(v) && Ends(rest)
    ensures ReadValue(Print(v, spell) + rest, float) == Got(v, rest)
    decreases v, 3
  {
    var s := Print(v, spell) + rest;
    match v {
      case Null => assert s[..4] == "null" && s[4..] == rest;
      case Bool(b) =>
        if b {
          assert s[..4] == "true" && s[4..] == rest;
        } else {
          assert s[..5] == "false" && s[5..] == rest;
        }
      case Num(n) => NumberRead(n, rest, spell, float);
      case Str(a) => StringRead(a, rest);
      case Arr(items) => ArrayRead(items, rest, spell, float);
      case Obj(ms) => ObjectRead(ms, rest, spell, float);
    }
  }

  lemma {:induction false} ArrayRead(items: seq<Value>, rest: string, spell: Spelling, float: FloatReader)
    requires SoundSpelling(spell) && Undoes(float, spell) && WellFormed(Arr(items)) && Ends(rest)
    ensures ReadValue(Print(Arr(items), spell) + rest, float) == Got(Arr(items), rest)
    decreases items, 2
  {
    hide ReadItems;
    var s := Print(Arr(items), spell) + rest;
    if items == [] {
      assert s == "[]" + rest;
    } else {
      var p, q := Print(items[0], spell), PrintItems(items[1..], spell);
      Regroup("[", p, q, rest);
      PrintStart(items[0], spell);
      assert s[0] == '[' && s[1] == p[0] && s[1..] == p + (q + rest);
      ItemsRead(items, rest, spell, float);
    }
  }

  lemma {:induction false} ItemsRead(items: seq<Value>, rest: string, spell: Spelling, float: FloatReader)
    requires SoundSpelling(spell) && Undoes(float, spell) && Ends(rest)
    requires items != [] && forall i :: 0 <= i < |items| ==> WellFormed(items[i])
    ensures ReadItems(Print(items[0], spell) + (PrintItems(items[1..], spell) + rest), float) == Got(items, rest)
    decreases items, 1
  {
    hide ReadValue;
    var more := items[1..];
    var after := PrintItems(more, spell) + rest;
    assert items == [items[0]] + more;
    if more != [] {
      var p, q := Print(more[0], spell), PrintItems(more[1..], spell);
      Regroup(",", p, q, rest);
      assert after[1..] == p + (q + rest);
      ItemsRead(more, rest, spell, float);
    } else {
      assert items == [items[0]];
      assert after == "]" + rest && after[1..] == rest;
    }
    PrintedRead(items[0], after, spell, float);
  }

  lemma {:induction false} MemberRead(m: Member, rest: string, spell: Spelling, float: FloatReader)
    requires SoundSpelling(spell) && Undoes(float, spell) && WellFormed(m.value) && Ends(rest)
    ensures ReadMember(PrintMember(m, spell) + rest, float) == Got(m, rest)
    decreases m, 4
  {
    hide ReadValue, ReadChars, StringText;
    var p := Print(m.value, spell);
    Regroup(StringText(m.key), ":", p, rest);
    var after := ":" + (p + rest);
    assert PrintMember(m, spell) + rest == StringText(m.key) + after;
    StringRead(m.key, after);
    assert after[1..] == p + rest;
    PrintedRead(m.value, rest, spell, float);
  }

  lemma {:induction false} ObjectRead(ms: seq<Member>, rest: string, spell: Spelling, float: FloatReader)
    requires SoundSpelling(spell) && Undoes(float, spell) && WellFormed(Obj(ms)) && Ends(rest)
    ensures ReadValue(Print(Obj(ms), spell) + rest, float) == Got(Obj(ms), rest)
    decreases ms, 2
  {
    hide ReadMembers;
    var s := Print(Obj(ms), spell) + rest;
    if ms == [] {
      assert s == "{}" + rest;
    } else {
      var p, q := PrintMember(ms[0], spell), PrintMembers(ms[1..], spell);
      Regroup("{", p, q, rest);
      assert p[0] == '\"';
      assert s[0] == '{' && s[1] == p[0] && s[1..] == p + (q + rest);
      MembersRead(ms, rest, spell, float);
    }
  }

  lemma {:induction false} MembersRead(ms: seq<Member>, rest: string, spell: Spelling, float: FloatReader)
    requires SoundSpelling(spell) && Undoes(float, spell) && Ends(rest)
    requires ms != [] && forall i :: 0 <= i < |ms| ==> WellFormed(ms[i].value)
    ensures ReadMembers(PrintMember(ms[0], spell) + (PrintMembers(ms[1..], spell) + rest), float) == Got(ms, rest)
    decreases ms, 1
  {
    hide ReadMember;
    var more := ms[1..];
    var after := PrintMembers(more, spell) + rest;
    assert ms == [ms[0]] + more;
    if more != [] {
      var p, q := PrintMember(more[0], spell), PrintMembers(more[1..], spell);
      Regroup(",", p, q, rest);
      assert after[1..] == p + (q + rest);
      MembersRead(more, rest, spell, float);
    } else {
      assert ms == [ms[0]];
      assert after == "}" + rest && after[1..] == rest;
    }
    MemberRead(ms[0], after, spell, float);
  }

  /* ----- what follows ----- */

  ghost function FloatOf(token: string, spell: Spelling): Float {
    if exists f: Float :: f.Valid() && spell(f) == token then
      var f: Float :| f.Valid() && spell(f) == token;
      f
    else NegativeZero
  }

  /** A sound spelling can be read. */
  lemma FloatReaderExists(spell: Spelling) returns (float: FloatReader)
    requires SoundSpelling(spell)
    ensures Undoes(float, spell)
  {
    float := token => FloatOf(token, spell);
  }

  /** The text of a value is read as that value. */
  lemma ReadPrint(v: Value, spell: Spelling, float: FloatReader)
    requires SoundSpelling(spell) && Undoes(float, spell) && WellFormed(v)
    ensures Read(Print(v, spell), float) == Some(v)
  {
    hide ReadValue, Print;
    PrintedRead(v, "", spell, float);
    assert Print(v, spell) + "" == Print(v, spell);
  }

  /** So the printer is injective. */
  lemma PrintInjective(a: Value, b: Value, spell: Spelling)
    requires SoundSpelling(spell) && WellFormed(a) && WellFormed(b)
    ensures Print(a, spell) == Print(b, spell) <==> a == b
  {
    hide Read, Print;
    var float := FloatReaderExists(spell);
    ReadPrint(a, spell, float);
    ReadPrint(b, spell, float);
  }

  /** Canonical texts agree exactly when the values are equivalent. */
  lemma CanonicalTextDecides(a: Value, b: Value, spell: Spelling)
    requires SoundSpelling(spell) && WellFormed(a) && WellFormed(b)
    ensures CanonicalText(a, spell) == CanonicalText(b, spell) <==> Equivalent(a, b)
  {
    CanonicalWellFormed(a);
    CanonicalWellFormed(b);
    PrintInjective(Canonical(a), Canonical(b), spell);
    CanonicalDecides(a, b);
  }
}
