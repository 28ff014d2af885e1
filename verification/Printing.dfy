/**
 The compact JSON text that `serde_json::to_vec` writes (RFC 8259, sections 4 to 7). Reading
 proves what the text means.
 */
module Printing {
  import opened Text
  import opened Numbers
  import opened Json

  /** How a float is spelled: a parameter, used only through `SoundSpelling`. */
  type Spelling = Float -> string

  predicate IsNumberChar(c: char) {
    IsDigit(c) || c == '-' || c == '+' || c == '.' || c == 'e' || c == 'E'
  }

  predicate IsFloatMark(c: char) { c == '.' || c == 'e' || c == 'E' }

  predicate IsFloatToken(t: string) {
    && |t| > 0
    && (forall i :: 0 <= i < |t| ==> IsNumberChar(t[i]))
    && exists i :: 0 <= i < |t| && IsFloatMark(t[i])
  }

  /** Distinct floats are spelled differently, with number characters and a point or an exponent. */
  ghost predicate SoundSpelling(spell: Spelling) {
    && (forall f: Float :: f.Valid() ==> IsFloatToken(spell(f)))
    && (forall f: Float, g: Float :: f.Valid() && g.Valid() && spell(f) == spell(g) ==> f == g)
  }

  function NumberText(n: Number, spell: Spelling): string {
    match n
    case PosInt(k) => Decimal(k)
    case NegInt(i) => if i < 0 then "-" + Decimal(-i) else Decimal(i)
    case FloatNum(f) => spell(f)
  }

  function HexDigit(d: nat): char
    requires d < 16
  {
    ['0', '1', '2', '3', '4', '5', '6', '7', '8', '9', 'a', 'b', 'c', 'd', 'e', 'f'][d]
  }

  function EscapeChar(c: char): (r: string)
    ensures |r| > 0
  {
    if c == '\"' then "\\\""
    else if c == '\\' then "\\\\"
    else if c == 8 as char then "\\b"
    else if c == 12 as char then "\\f"
    else if c == '\n' then "\\n"
    else if c == '\r' then "\\r"
    else if c == '\t' then "\\t"
    else if c < ' ' then "\\u00" + [HexDigit(c as int / 16), HexDigit(c as int % 16)]
    else [c]
  }

  function Escape(s: string): string {
    if s == "" then "" else EscapeChar(s[0]) + Escape(s[1..])
  }

  function StringText(s: string): string { "\"" + Escape(s) + "\"" }

  function Print(v: Value, spell: Spelling): string
    decreases v, 1
  {
    match v
    case Null => "null"
    case Bool(b) => if b then "true" else "false"
    case Num(n) => NumberText(n, spell)
    case Str(s) => StringText(s)
    case Arr(items) =>
      "[" + (if items == [] then "]" else Print(items[0], spell) + PrintItems(items[1..], spell))
    case Obj(ms) =>
      "{" + (if ms == [] then "}" else PrintMember(ms[0], spell) + PrintMembers(ms[1..], spell))
  }

  /** What follows the first element of an array. */
  function PrintItems(items: seq<Value>, spell: Spelling): string
    decreases items, 0
  {
    if items == [] then "]" else "," + (Print(items[0], spell) + PrintItems(items[1..], spell))
  }

  function PrintMember(m: Member, spell: Spelling): string
    decreases m, 2
  {
    StringText(m.key) + (":" + Print(m.value, spell))
  }

  function PrintMembers(ms: seq<Member>, spell: Spelling): string
    decreases ms, 0
  {
    if ms == [] then "}" else "," + (PrintMember(ms[0], spell) + PrintMembers(ms[1..], spell))
  }

  /** `serde_json::to_vec(&canonical_json(v))` */
  function CanonicalText(v: Value, spell: Spelling): string {
    Print(Canonical(v), spell)
  }
}
