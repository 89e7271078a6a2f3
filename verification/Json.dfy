/** JSON values and the ASCII text `json.dumps(value, sort_keys=True, ...)` writes for them.

    `Print(v, "")` is the compact form (separators "," and ":"), `Print(v, " ")` the default form
    (separators ", " and ": ").  The text of a value determines the value: `PrintInjective`. */
module Json {
  import opened Ordering
  import opened Text

  predicate NumeralChar(c: char) {
    '0' <= c <= '9' || c == '+' || c == '-' || c == '.' || c == 'e' || c == 'E'
  }

  predicate IsDigit(c: char) {
    '0' <= c <= '9'
  }

  /** How many digits the text starts with. */
  function DigitRun(s: string): (n: nat)
    ensures n <= |s|
  {
    if s == "" || !IsDigit(s[0]) then 0 else 1 + DigitRun(s[1..])
  }

  /** Nothing, or the exponent of a number. */
  predicate IsExponent(s: string) {
    s == "" ||
    ((s[0] == 'e' || s[0] == 'E') &&
     var power := if |s| > 1 && (s[1] == '+' || s[1] == '-') then s[2..] else s[1..];
     power != "" && DigitRun(power) == |power|)
  }

  /** What may follow the integer part of a number. */
  predicate IsFraction(s: string) {
    if s != "" && s[0] == '.' then DigitRun(s[1..]) > 0 && IsExponent(s[1 + DigitRun(s[1..])..]) else IsExponent(s)
  }

  /** The grammar of numbers, RFC 8259 section 6. */
  predicate IsNumber(s: string) {
    var digits := if s != "" && s[0] == '-' then s[1..] else s;
    var n := DigitRun(digits);
    n > 0 && (digits[0] == '0' ==> n == 1) && IsFraction(digits[n..])
  }

  predicate IsNumeral(s: string) {
    s != "" && (forall c | c in s :: NumeralChar(c)) && IsNumber(s)
  }

  /** A number, carried as the text Python writes for it. */
  type Numeral = s: string | IsNumeral(s) witness "0"

  datatype Json =
    | Null
    | Bool(value: bool)
    | Num(text: Numeral)
    | Str(chars: string)
    | Arr(items: seq<Json>)
    | Obj(fields: map<string, Json>)

  /** Python's `dict.get(key)`, an absent key reading as `None`. */
  function Get(v: Json, key: string): Json {
    if v.Obj? && key in v.fields then v.fields[key] else Null
  }

  // ---- Text of a string ------------------------------------------------------------------------

  function HexDigit(d: nat): char
    requires d < 16
  {
    "0123456789abcdef"[d]
  }

  lemma {:induction false} AllDigits(s: string)
    requires forall c | c in s :: IsDigit(c)
    ensures DigitRun(s) == |s|
  {
    if s != "" {
      AllDigits(s[1..]);
    }
  }

  /** `str` of a natural number. */
  function Decimal(n: nat): (text: string)
    ensures IsNumeral(text) && (forall c | c in text :: IsDigit(c)) && (n > 0 ==> text[0] != '0')
  {
    var text := if n < 10 then [HexDigit(n)] else Decimal(n / 10) + [HexDigit(n % 10)];
    AllDigits(text);
    text
  }

  /** `n` in hexadecimal, in exactly `width` lower-case digits. */
  function Hex(n: nat, width: nat): (s: string)
    ensures |s| == width
  {
    if width == 0 then "" else Hex(n / 16, width - 1) + [HexDigit(n % 16)]
  }

  /** Whether `ensure_ascii=True` writes the character as itself. */
  predicate Plain(c: char) {
    ' ' <= c <= '~' && c != '"' && c != '\\'
  }

  /** The character after the backslash in the escape sequence of a character that is not plain. */
  function Letter(c: char): char {
    if c == '"' || c == '\\' then c
    else if c == '\n' then 'n'
    else if c == '\r' then 'r'
    else if c == '\t' then 't'
    else if c as int == 8 then 'b'
    else if c as int == 12 then 'f'
    else 'u'
  }

  function EscapeChar(c: char): string {
    if Plain(c) then [c]
    else ['\\', Letter(c)] + if Letter(c) == 'u' then Hex(LeadUnit(c), 4) + AfterLead(c) else ""
  }

  /** The UTF-16 code unit in the first "\\u" escape of a character, and the escape of the second unit if it has one. */
  function LeadUnit(c: char): nat {
    var n := c as int;
    if n < 0x10000 then n else 0xD800 + (n - 0x10000) / 0x400
  }

  function AfterLead(c: char): string {
    var n := c as int;
    if n < 0x10000 then "" else "\\u" + Hex(0xDC00 + (n - 0x10000) % 0x400, 4)
  }

  function Escape(s: string): string {
    if s == "" then "" else EscapeChar(s[0]) + Escape(s[1..])
  }

  // ---- Text of a value -------------------------------------------------------------------------

  function Print(v: Json, pad: string): string
    decreases v
  {
    match v
    case Null => "null"
    case Bool(b) => if b then "true" else "false"
    case Num(text) => text
    case Str(s) => "\"" + Escape(s) + "\""
    case Arr(_) => "[" + ArrBody(v, pad)
    case Obj(fields) => "{" + ObjBody(v, SortedKeys(fields.Keys), pad)
  }

  function ArrBody(v: Json, pad: string): string
    requires v.Arr?
    decreases v, |v.items| + 1
  {
    if v.items == [] then "]" else Print(v.items[0], pad) + PrintItems(v, v.items[1..], pad)
  }

  /** The text of the array items after the first, and the closing bracket. */
  function PrintItems(v: Json, items: seq<Json>, pad: string): string
    requires v.Arr? && forall x | x in items :: x in v.items
    decreases v, |items|
  {
    if items == [] then "]"
    else
      assert items[0] in v.items;
      "," + pad + Print(items[0], pad) + PrintItems(v, items[1..], pad)
  }

  function ObjBody(v: Json, keys: seq<string>, pad: string): string
    requires v.Obj? && forall k | k in keys :: k in v.fields
    decreases v, |keys| + 1
  {
    if keys == [] then "}"
    else PrintField(keys[0], Print(v.fields[keys[0]], pad), pad) + PrintFields(v, keys[1..], pad)
  }

  function PrintField(key: string, text: string, pad: string): string {
    "\"" + Escape(key) + "\"" + (":" + pad) + text
  }

  /** The text of the members after the first, and the closing brace. */
  function PrintFields(v: Json, keys: seq<string>, pad: string): string
    requires v.Obj? && forall k | k in keys :: k in v.fields
    decreases v, |keys|
  {
    if keys == [] then "}"
    else "," + pad + PrintField(keys[0], Print(v.fields[keys[0]], pad), pad) + PrintFields(v, keys[1..], pad)
  }

  // ---- Injectivity -----------------------------------------------------------------------------

  lemma HexDigitInjective(d: nat, e: nat)
    requires d < 16 && e < 16
    ensures HexDigit(d) == HexDigit(e) ==> d == e
  {
  }

  function Power16(width: nat): nat {
    if width == 0 then 1 else 16 * Power16(width - 1)
  }

  lemma {:induction false} HexPrefix(m: nat, n: nat, width: nat, x: string, y: string)
    requires m < Power16(width) && n < Power16(width) && Hex(m, width) + x == Hex(n, width) + y
    ensures m == n && x == y
  {
    if width > 0 {
      var a, b := Hex(m / 16, width - 1), Hex(n / 16, width - 1);
      assert Hex(m, width) + x == a + ([HexDigit(m % 16)] + x);
      assert Hex(n, width) + y == b + ([HexDigit(n % 16)] + y);
      HexPrefix(m / 16, n / 16, width - 1, [HexDigit(m % 16)] + x, [HexDigit(n % 16)] + y);
      assert ([HexDigit(m % 16)] + x)[0] == ([HexDigit(n % 16)] + y)[0];
      HexDigitInjective(m % 16, n % 16);
      assert x == ([HexDigit(m % 16)] + x)[1..] && y == ([HexDigit(n % 16)] + y)[1..];
    } else {
      assert x == Hex(m, 0) + x && y == Hex(n, 0) + y;
    }
  }

  lemma Hex4Prefix(m: nat, n: nat, x: string, y: string)
    requires m < 0x10000 && n < 0x10000 && Hex(m, 4) + x == Hex(n, 4) + y
    ensures m == n && x == y
  {
    assert Power16(4) == 16 * Power16(3) && Power16(3) == 16 * Power16(2);
    HexPrefix(m, n, 4, x, y);
  }

  lemma UnicodePrefix(c: char, d: char, x: string, y: string)
    requires Hex(LeadUnit(c), 4) + (AfterLead(c) + x) == Hex(LeadUnit(d), 4) + (AfterLead(d) + y)
    ensures c == d && x == y
  {
    Hex4Prefix(LeadUnit(c), LeadUnit(d), AfterLead(c) + x, AfterLead(d) + y);
    if c as int >= 0x10000 && d as int >= 0x10000 {
      TrailPrefix(c as int - 0x10000, d as int - 0x10000, x, y);
    } else {
      Cut(AfterLead(c), AfterLead(d), x, y);
    }
  }

  lemma TrailPrefix(i: nat, j: nat, x: string, y: string)
    requires "\\u" + Hex(0xDC00 + i % 0x400, 4) + x == "\\u" + Hex(0xDC00 + j % 0x400, 4) + y
    requires i / 0x400 == j / 0x400
    ensures i == j && x == y
  {
    Regroup("\\u", Hex(0xDC00 + i % 0x400, 4), x);
    Regroup("\\u", Hex(0xDC00 + j % 0x400, 4), y);
    Cut("\\u", "\\u", Hex(0xDC00 + i % 0x400, 4) + x, Hex(0xDC00 + j % 0x400, 4) + y);
    Hex4Prefix(0xDC00 + i % 0x400, 0xDC00 + j % 0x400, x, y);
  }

  /** A text that starts with an escape sequence starts with exactly one. */
  lemma EscapeCharPrefix(c: char, d: char, x: string, y: string)
    requires EscapeChar(c) + x == EscapeChar(d) + y
    ensures c == d && x == y
  {
    assert (EscapeChar(c) + x)[0] == EscapeChar(c)[0] && (EscapeChar(d) + y)[0] == EscapeChar(d)[0];
    if Plain(c) || Plain(d) {
      Cut(EscapeChar(c), EscapeChar(d), x, y);
    } else {
      BackslashPrefix(c, d, EscapeChar(c)[2..], EscapeChar(d)[2..], x, y);
    }
  }

  lemma BackslashPrefix(c: char, d: char, p: string, q: string, x: string, y: string)
    requires !Plain(c) && !Plain(d)
    requires p == if Letter(c) == 'u' then Hex(LeadUnit(c), 4) + AfterLead(c) else ""
    requires q == if Letter(d) == 'u' then Hex(LeadUnit(d), 4) + AfterLead(d) else ""
    requires ['\\', Letter(c)] + p + x == ['\\', Letter(d)] + q + y
    ensures c == d && x == y
  {
    Regroup(['\\', Letter(c)], p, x);
    Regroup(['\\', Letter(d)], q, y);
    Cut(['\\', Letter(c)], ['\\', Letter(d)], p + x, q + y);
    assert Letter(c) == ['\\', Letter(c)][1] == ['\\', Letter(d)][1] == Letter(d);
    if Letter(c) == 'u' {
      Regroup(Hex(LeadUnit(c), 4), AfterLead(c), x);
      Regroup(Hex(LeadUnit(d), 4), AfterLead(d), y);
      UnicodePrefix(c, d, x, y);
    } else {
      Cut(p, q, x, y);
    }
  }

  lemma EscapeHead(s: string, x: string)
    requires x != "" && x[0] == '\"'
    ensures (Escape(s) + x)[0] == '\"' <==> s == ""
  {
    if s != "" {
      Regroup(EscapeChar(s[0]), Escape(s[1..]), x);
      assert (EscapeChar(s[0]) + (Escape(s[1..]) + x))[0] == EscapeChar(s[0])[0];
    }
  }

  lemma {:induction false} EscapePrefix(s: string, t: string, x: string, y: string)
    requires Escape(s) + ("\"" + x) == Escape(t) + ("\"" + y)
    ensures s == t && x == y
  {
    var u, w := "\"" + x, "\"" + y;
    EscapeHead(s, u);
    EscapeHead(t, w);
    if s == "" || t == "" {
      Cut(Escape(s), Escape(t), u, w);
      Cut("\"", "\"", x, y);
    } else {
      Regroup(EscapeChar(s[0]), Escape(s[1..]), u);
      Regroup(EscapeChar(t[0]), Escape(t[1..]), w);
      EscapeCharPrefix(s[0], t[0], Escape(s[1..]) + u, Escape(t[1..]) + w);
      EscapePrefix(s[1..], t[1..], x, y);
      assert s == [s[0]] + s[1..] && t == [t[0]] + t[1..];
    }
  }

  /** What can follow a value inside a larger text. */
  predicate Ends(x: string) {
    x == "" || x[0] == ',' || x[0] == ']' || x[0] == '}' || x[0] == '\n'
  }

  lemma NumeralEnds(s: Numeral, x: string)
    requires Ends(x)
    ensures forall i | 0 <= i < |s| :: NumeralChar((s + x)[i])
    ensures |s| < |s + x| ==> !NumeralChar((s + x)[|s|])
  {
    forall i | 0 <= i < |s|
      ensures NumeralChar((s + x)[i])
    {
      assert s[i] in s;
    }
  }

  lemma NumeralPrefix(s: Numeral, t: Numeral, x: string, y: string)
    requires s + x == t + y && Ends(x) && Ends(y)
    ensures s == t && x == y
  {
    NumeralEnds(s, x);
    NumeralEnds(t, y);
    Cut(s, t, x, y);
  }

  predicate HeadOf(v: Json, c: char) {
    match v
    case Null => c == 'n'
    case Bool(b) => c == if b then 't' else 'f'
    case Num(_) => NumeralChar(c)
    case Str(_) => c == '\"'
    case Arr(_) => c == '['
    case Obj(_) => c == '{'
  }

  /** The first character of a value's text tells its kind. */
  lemma PrintHead(v: Json, pad: string, x: string)
    ensures Print(v, pad) != "" && HeadOf(v, Print(v, pad)[0])
    ensures (Print(v, pad) + x)[0] == Print(v, pad)[0]
  {
  }

  lemma {:induction false} PrintPrefix(v: Json, w: Json, pad: string, x: string, y: string)
    requires Print(v, pad) + x == Print(w, pad) + y && Ends(x) && Ends(y)
    ensures v == w && x == y
    decreases v
  {
    PrintHead(v, pad, x);
    PrintHead(w, pad, y);
    match v {
      case Null => Cut("null", "null", x, y);
      case Bool(b) => Cut(Print(v, pad), Print(w, pad), x, y);
      case Num(s) => NumeralPrefix(s, w.text, x, y);
      case Str(s) => StrPrefix(s, w.chars, x, y);
      case Arr(items) => ArrPrefix(v, w, pad, x, y);
      case Obj(fields) => ObjPrefix(v, w, pad, x, y);
    }
  }

  lemma StrPrefix(s: string, t: string, x: string, y: string)
    requires "\"" + Escape(s) + "\"" + x == "\"" + Escape(t) + "\"" + y
    ensures s == t && x == y
  {
    QuotedTail(s, x);
    QuotedTail(t, y);
    Cut("\"", "\"", Escape(s) + ("\"" + x), Escape(t) + ("\"" + y));
    EscapePrefix(s, t, x, y);
  }

  lemma QuotedTail(s: string, x: string)
    ensures "\"" + Escape(s) + "\"" + x == "\"" + (Escape(s) + ("\"" + x))
  {
    Regroup("\"" + Escape(s), "\"", x);
    Regroup("\"", Escape(s), "\"" + x);
  }

  lemma {:induction false} ArrPrefix(v: Json, w: Json, pad: string, x: string, y: string)
    requires v.Arr? && w.Arr?
    requires Print(v, pad) + x == Print(w, pad) + y && Ends(x) && Ends(y)
    ensures v == w && x == y
    decreases v, |v.items| + 1
  {
    var a, b := ArrBody(v, pad), ArrBody(w, pad);
    Regroup("[", a, x);
    Regroup("[", b, y);
    Cut("[", "[", a + x, b + y);
    if v.items == [] || w.items == [] {
      ArrBodyHead(v, pad, x);
      ArrBodyHead(w, pad, y);
      Cut(a, b, x, y);
    } else {
      var p, q := PrintItems(v, v.items[1..], pad), PrintItems(w, w.items[1..], pad);
      Regroup(Print(v.items[0], pad), p, x);
      Regroup(Print(w.items[0], pad), q, y);
      ItemsEnd(v, v.items[1..], pad, x);
      ItemsEnd(w, w.items[1..], pad, y);
      PrintPrefix(v.items[0], w.items[0], pad, p + x, q + y);
      ItemsPrefix(v, w, v.items[1..], w.items[1..], pad, x, y);
      assert v.items == [v.items[0]] + v.items[1..] && w.items == [w.items[0]] + w.items[1..];
    }
  }

  lemma ArrBodyHead(v: Json, pad: string, x: string)
    requires v.Arr?
    ensures ArrBody(v, pad) != "" && (ArrBody(v, pad) + x)[0] == ArrBody(v, pad)[0]
    ensures ArrBody(v, pad)[0] == ']' <==> v.items == []
    ensures v.items == [] ==> |ArrBody(v, pad)| == 1
  {
    if v.items != [] {
      PrintHead(v.items[0], pad, PrintItems(v, v.items[1..], pad));
    }
  }

  lemma ItemsEnd(v: Json, s: seq<Json>, pad: string, x: string)
    requires v.Arr? && forall i | i in s :: i in v.items
    ensures PrintItems(v, s, pad) != ""
    ensures (PrintItems(v, s, pad) + x)[0] == PrintItems(v, s, pad)[0] == if s == [] then ']' else ','
    ensures Ends(PrintItems(v, s, pad) + x)
    ensures s == [] ==> |PrintItems(v, s, pad)| == 1
  {
  }

  lemma {:induction false} ItemsPrefix(v: Json, w: Json, s: seq<Json>, t: seq<Json>, pad: string, x: string, y: string)
    requires v.Arr? && w.Arr? && (forall i | i in s :: i in v.items) && (forall i | i in t :: i in w.items)
    requires PrintItems(v, s, pad) + x == PrintItems(w, t, pad) + y && Ends(x) && Ends(y)
    ensures s == t && x == y
    decreases v, |s|
  {
    ItemsEnd(v, s, pad, x);
    ItemsEnd(w, t, pad, y);
    if s == [] || t == [] {
      Cut(PrintItems(v, s, pad), PrintItems(w, t, pad), x, y);
    } else {
      assert s[0] in v.items && t[0] in w.items;
      var a, b := PrintItems(v, s[1..], pad), PrintItems(w, t[1..], pad);
      Regroup3("," + pad, Print(s[0], pad), a, x);
      Regroup3("," + pad, Print(t[0], pad), b, y);
      Cut("," + pad, "," + pad, Print(s[0], pad) + (a + x), Print(t[0], pad) + (b + y));
      ItemsEnd(v, s[1..], pad, x);
      ItemsEnd(w, t[1..], pad, y);
      PrintPrefix(s[0], t[0], pad, a + x, b + y);
      ItemsPrefix(v, w, s[1..], t[1..], pad, x, y);
      assert s == [s[0]] + s[1..] && t == [t[0]] + t[1..];
    }
  }

  lemma {:induction false} ObjPrefix(v: Json, w: Json, pad: string, x: string, y: string)
    requires v.Obj? && w.Obj?
    requires Print(v, pad) + x == Print(w, pad) + y && Ends(x) && Ends(y)
    ensures v == w && x == y
    decreases v, |SortedKeys(v.fields.Keys)| + 1
  {
    var s, t := SortedKeys(v.fields.Keys), SortedKeys(w.fields.Keys);
    var a, b := ObjBody(v, s, pad), ObjBody(w, t, pad);
    Regroup("{", a, x);
    Regroup("{", b, y);
    Cut("{", "{", a + x, b + y);
    ObjBodyHead(v, s, pad, x);
    ObjBodyHead(w, t, pad, y);
    if s == [] || t == [] {
      Cut(a, b, x, y);
    } else {
      var p, q := PrintFields(v, s[1..], pad), PrintFields(w, t[1..], pad);
      Regroup(PrintField(s[0], Print(v.fields[s[0]], pad), pad), p, x);
      Regroup(PrintField(t[0], Print(w.fields[t[0]], pad), pad), q, y);
      FieldsEnd(v, s[1..], pad, x);
      FieldsEnd(w, t[1..], pad, y);
      FieldPrefix(v, w, s[0], t[0], pad, p + x, q + y);
      FieldsPrefix(v, w, s[1..], t[1..], pad, x, y);
      assert s == [s[0]] + s[1..] && t == [t[0]] + t[1..];
    }
    SameFields(v, w, s);
  }

  lemma SameFields(v: Json, w: Json, s: seq<string>)
    requires v.Obj? && w.Obj?
    requires (forall k :: k in s <==> k in v.fields.Keys) && (forall k :: k in s <==> k in w.fields.Keys)
    requires forall k | k in s :: v.fields[k] == w.fields[k]
    ensures v == w
  {
    assert v.fields.Keys == w.fields.Keys;
    assert forall k | k in v.fields.Keys :: k in s;
    assert v.fields == w.fields;
  }

  lemma ObjBodyHead(v: Json, keys: seq<string>, pad: string, x: string)
    requires v.Obj? && forall k | k in keys :: k in v.fields
    ensures ObjBody(v, keys, pad) != "" && (ObjBody(v, keys, pad) + x)[0] == ObjBody(v, keys, pad)[0]
    ensures ObjBody(v, keys, pad)[0] == if keys == [] then '}' else '\"'
    ensures keys == [] ==> |ObjBody(v, keys, pad)| == 1
  {
  }

  lemma FieldsEnd(v: Json, keys: seq<string>, pad: string, x: string)
    requires v.Obj? && forall k | k in keys :: k in v.fields
    ensures PrintFields(v, keys, pad) != ""
    ensures (PrintFields(v, keys, pad) + x)[0] == PrintFields(v, keys, pad)[0] == if keys == [] then '}' else ','
    ensures Ends(PrintFields(v, keys, pad) + x)
    ensures keys == [] ==> |PrintFields(v, keys, pad)| == 1
  {
  }

  lemma {:induction false} FieldPrefix(v: Json, w: Json, k: string, m: string, pad: string, x: string, y: string)
    requires v.Obj? && w.Obj? && k in v.fields && m in w.fields && Ends(x) && Ends(y)
    requires PrintField(k, Print(v.fields[k], pad), pad) + x == PrintField(m, Print(w.fields[m], pad), pad) + y
    ensures k == m && v.fields[k] == w.fields[m] && x == y
    decreases v, 0
  {
    var p, q := Print(v.fields[k], pad), Print(w.fields[m], pad);
    FieldTail(k, p, pad, x);
    FieldTail(m, q, pad, y);
    Cut("\"", "\"", Escape(k) + ("\"" + (":" + pad + (p + x))), Escape(m) + ("\"" + (":" + pad + (q + y))));
    EscapePrefix(k, m, ":" + pad + (p + x), ":" + pad + (q + y));
    Cut(":" + pad, ":" + pad, p + x, q + y);
    PrintPrefix(v.fields[k], w.fields[m], pad, x, y);
  }

  lemma FieldTail(k: string, p: string, pad: string, x: string)
    ensures PrintField(k, p, pad) + x == "\"" + (Escape(k) + ("\"" + (":" + pad + (p + x))))
  {
    Regroup("\"" + Escape(k) + "\"" + (":" + pad), p, x);
    Regroup("\"" + Escape(k) + "\"", ":" + pad, p + x);
    QuotedTail(k, ":" + pad + (p + x));
  }

  lemma {:induction false} FieldsPrefix(v: Json, w: Json, s: seq<string>, t: seq<string>, pad: string, x: string, y: string)
    requires v.Obj? && w.Obj? && (forall k | k in s :: k in v.fields) && (forall k | k in t :: k in w.fields)
    requires PrintFields(v, s, pad) + x == PrintFields(w, t, pad) + y && Ends(x) && Ends(y)
    ensures s == t && x == y
    ensures forall k | k in s :: v.fields[k] == w.fields[k]
    decreases v, |s|
  {
    FieldsEnd(v, s, pad, x);
    FieldsEnd(w, t, pad, y);
    if s == [] || t == [] {
      Cut(PrintFields(v, s, pad), PrintFields(w, t, pad), x, y);
    } else {
      var p, q := PrintField(s[0], Print(v.fields[s[0]], pad), pad), PrintField(t[0], Print(w.fields[t[0]], pad), pad);
      var a, b := PrintFields(v, s[1..], pad), PrintFields(w, t[1..], pad);
      Regroup3("," + pad, p, a, x);
      Regroup3("," + pad, q, b, y);
      Cut("," + pad, "," + pad, p + (a + x), q + (b + y));
      FieldsEnd(v, s[1..], pad, x);
      FieldsEnd(w, t[1..], pad, y);
      FieldPrefix(v, w, s[0], t[0], pad, a + x, b + y);
      FieldsPrefix(v, w, s[1..], t[1..], pad, x, y);
      assert s == [s[0]] + s[1..] && t == [t[0]] + t[1..];
    }
  }

  /** Equal texts come from equal values, whichever separators are used. */
  lemma PrintInjective(v: Json, w: Json, pad: string)
    ensures Print(v, pad) == Print(w, pad) <==> v == w
  {
    if Print(v, pad) == Print(w, pad) {
      PrintPrefix(v, w, pad, "", "");
    }
  }

  // ---- The characters of a text ----------------------------------------------------------------

  predicate Printable(s: string) {
    forall c | c in s :: ' ' <= c <= '~'
  }

  lemma {:induction false} HexPrintable(n: nat, width: nat)
    ensures Printable(Hex(n, width))
  {
    if width > 0 {
      HexPrintable(n / 16, width - 1);
    }
  }

  lemma {:induction false} EscapePrintable(s: string)
    ensures Printable(Escape(s))
  {
    if s != "" {
      HexPrintable(LeadUnit(s[0]), 4);
      HexPrintable(0xDC00 + (s[0] as int - 0x10000) % 0x400, 4);
      EscapePrintable(s[1..]);
    }
  }

  /** Everything outside a string, and every escaped character in one, is printable: a text is one line. */
  lemma {:induction false} PrintPrintable(v: Json, pad: string)
    requires Printable(pad)
    ensures Printable(Print(v, pad)) && Print(v, pad) != "" && '!' <= Print(v, pad)[0] <= '~'
    decreases v
  {
    hide IsNumber;
    match v {
      case Null =>
      case Bool(_) =>
      case Num(text) => assert text[0] in text;
      case Str(s) => EscapePrintable(s);
      case Arr(_) => ArrPrintable(v, pad);
      case Obj(_) => ObjPrintable(v, SortedKeys(v.fields.Keys), pad);
    }
  }

  lemma FieldPrintable(key: string, text: string, pad: string)
    requires Printable(text) && Printable(pad)
    ensures Printable(PrintField(key, text, pad))
  {
    EscapePrintable(key);
  }

  lemma {:induction false} ArrPrintable(v: Json, pad: string)
    requires v.Arr? && Printable(pad)
    ensures Printable(ArrBody(v, pad))
    decreases v, |v.items| + 1
  {
    if v.items != [] {
      PrintPrintable(v.items[0], pad);
      ItemsPrintable(v, v.items[1..], pad);
    }
  }

  lemma {:induction false} ObjPrintable(v: Json, keys: seq<string>, pad: string)
    requires v.Obj? && (forall k | k in keys :: k in v.fields) && Printable(pad)
    ensures Printable(ObjBody(v, keys, pad))
    decreases v, |keys| + 1
  {
    if keys != [] {
      hide Print, PrintField;
      PrintPrintable(v.fields[keys[0]], pad);
      FieldPrintable(keys[0], Print(v.fields[keys[0]], pad), pad);
      FieldsPrintable(v, keys[1..], pad);
    }
  }

  lemma {:induction false} ItemsPrintable(v: Json, items: seq<Json>, pad: string)
    requires v.Arr? && (forall x | x in items :: x in v.items) && Printable(pad)
    ensures Printable(PrintItems(v, items, pad))
    decreases v, |items|
  {
    if items != [] {
      assert items[0] in v.items;
      PrintPrintable(items[0], pad);
      ItemsPrintable(v, items[1..], pad);
    }
  }

  lemma {:induction false} FieldsPrintable(v: Json, keys: seq<string>, pad: string)
    requires v.Obj? && (forall k | k in keys :: k in v.fields) && Printable(pad)
    ensures Printable(PrintFields(v, keys, pad))
    decreases v, |keys|
  {
    if keys != [] {
      hide Print, PrintField;
      PrintPrintable(v.fields[keys[0]], pad);
      FieldPrintable(keys[0], Print(v.fields[keys[0]], pad), pad);
      FieldsPrintable(v, keys[1..], pad);
    }
  }

  // ---- The length of a text --------------------------------------------------------------------

  lemma {:induction false} EscapeLength(s: string)
    ensures |Escape(s)| >= |s|
  {
    if s != "" {
      EscapeLength(s[1..]);
    }
  }

  lemma {:induction false} FieldsLength(v: Json, keys: seq<string>, k: string, pad: string)
    requires v.Obj? && (forall x | x in keys :: x in v.fields) && k in keys
    ensures |PrintFields(v, keys, pad)| >= |Print(v.fields[k], pad)|
    decreases |keys|
  {
    if k != keys[0] {
      assert k in keys[1..];
      FieldsLength(v, keys[1..], k, pad);
    }
  }

  /** The text of an object is at least as long as that of any of its members. */
  lemma MemberLength(v: Json, k: string, pad: string)
    requires v.Obj? && k in v.fields
    ensures |Print(v, pad)| >= |Print(v.fields[k], pad)|
  {
    var keys := SortedKeys(v.fields.Keys);
    assert k in keys;
    if k != keys[0] {
      assert k in keys[1..];
      FieldsLength(v, keys[1..], k, pad);
    }
  }
}
