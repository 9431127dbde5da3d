/** Compact JSON text of the values facts and diagnostics serialize to, and why no two values share a text. */
module Json {
  import opened Prelude

  /** Strings, integers, absent options, lists and records in field order: all a derived serializer writes here. */
  datatype Value = Null | Text(text: string) | Number(number: int) | Array(items: Items) | Object(fields: Fields)
  datatype Items = NoItems | Items(head: Value, tail: Items)
  datatype Fields = NoFields | Field(name: string, value: Value, rest: Fields)

  // ---------------------------------------------------------------- the text

  function HexDigit(n: nat): char
    requires n < 16
  {
    "0123456789abcdef"[n]
  }

  /** One character inside a quoted string. */
  function Escape(c: char): (r: string)
    ensures r != "" && r[0] != '\"'
  {
    var u := c as int;
    if c == '\"' then "\\\""
    else if c == '\\' then "\\\\"
    else if u == 8 then "\\b"
    else if u == 9 then "\\t"
    else if u == 10 then "\\n"
    else if u == 12 then "\\f"
    else if u == 13 then "\\r"
    else if u < 32 then "\\u00" + [HexDigit(u / 16), HexDigit(u % 16)]
    else [c]
  }

  function EscapeAll(s: string): string
  {
    if s == "" then "" else Escape(s[0]) + EscapeAll(s[1..])
  }

  function Digit(n: nat): (c: char)
    requires n < 10
    ensures IsDigit(c)
  {
    (n + '0' as int) as char
  }

  predicate IsDigit(c: char) { '0' <= c <= '9' }

  function Decimal(n: nat): (r: string)
    ensures r != "" && forall i :: 0 <= i < |r| ==> IsDigit(r[i])
  {
    if n < 10 then [Digit(n)] else Decimal(n / 10) + [Digit(n % 10)]
  }

  function DigitValue(c: char): nat
    requires IsDigit(c)
  {
    c as int - '0' as int
  }

  /** The number that digits stand for, most significant first. */
  function NumberOf(digits: string): nat
    requires forall i :: 0 <= i < |digits| ==> IsDigit(digits[i])
  {
    if digits == "" then 0 else 10 * NumberOf(digits[..|digits| - 1]) + DigitValue(digits[|digits| - 1])
  }

  /** A number is written in decimal, without leading zeros. */
  lemma {:induction false} DecimalMeaning(n: nat)
    ensures NumberOf(Decimal(n)) == n && (Decimal(n)[0] == '0' ==> n == 0)
  {
    if n < 10 {
      assert Decimal(n)[..0] == "";
    } else {
      DecimalMeaning(n / 10);
      assert Decimal(n)[..|Decimal(n)| - 1] == Decimal(n / 10);
    }
  }

  function Encode(v: Value): (r: string)
    ensures r != ""
    decreases v
  {
    match v
    case Null => "null"
    case Text(s) => "\"" + EscapeAll(s) + "\""
    case Number(n) => if n < 0 then "-" + Decimal(-n) else Decimal(n)
    case Array(items) => "[" + EncodeItems(items) + "]"
    case Object(fields) => "{" + EncodeFields(fields) + "}"
  }

  function EncodeItems(items: Items): string
    decreases items
  {
    match items
    case NoItems => ""
    case Items(head, tail) => Encode(head) + (if tail.NoItems? then "" else "," + EncodeItems(tail))
  }

  function EncodeFields(f: Fields): string
    decreases f
  {
    match f
    case NoFields => ""
    case Field(name, value, rest) =>
      "\"" + EscapeAll(name) + "\":" + Encode(value) + (if rest.NoFields? then "" else "," + EncodeFields(rest))
  }

  // ---------------------------------------------------------------- strings

  /** Reading one escaped character back. */
  function Unescape(s: string): Option<(char, string)>
  {
    if s == "" then None
    else if s[0] != '\\' then Some((s[0], s[1..]))
    else if |s| < 2 then None
    else if s[1] == '\"' || s[1] == '\\' then Some((s[1], s[2..]))
    else if s[1] == 'b' then Some((8 as char, s[2..]))
    else if s[1] == 't' then Some((9 as char, s[2..]))
    else if s[1] == 'n' then Some((10 as char, s[2..]))
    else if s[1] == 'f' then Some((12 as char, s[2..]))
    else if s[1] == 'r' then Some((13 as char, s[2..]))
    else if s[1] == 'u' && |s| >= 6 && HexValue(s[4]) < 2
    then Some(((HexValue(s[4]) * 16 + HexValue(s[5])) as char, s[6..]))
    else None
  }

  function HexValue(c: char): (n: nat)
    ensures n < 16
  {
    if '0' <= c <= '9' then c as int - '0' as int else if 'a' <= c <= 'f' then c as int - 'a' as int + 10 else 0
  }

  lemma HexRoundTrip(n: nat)
    requires n < 16
    ensures HexValue(HexDigit(n)) == n
  {
  }

  lemma UnescapeEscape(c: char, rest: string)
    ensures Unescape(Escape(c) + rest) == Some((c, rest))
  {
    var u, s := c as int, Escape(c) + rest;
    if u < 32 && |Escape(c)| == 6 {
      HexRoundTrip(u / 16);
      HexRoundTrip(u % 16);
      assert s[0] == '\\' && s[1] == 'u' && s[4] == HexDigit(u / 16) && s[5] == HexDigit(u % 16);
      assert s[6..] == rest;
    } else if |Escape(c)| == 2 {
      assert s[0] == '\\' && s[1] == Escape(c)[1];
      assert s[2..] == rest;
    } else {
      assert s[0] == c && s[1..] == rest;
    }
  }

  lemma HeadOfString(s: string, x: string)
    requires s != ""
    ensures Unescape(EscapeAll(s) + "\"" + x) == Some((s[0], EscapeAll(s[1..]) + "\"" + x))
  {
    UnescapeEscape(s[0], EscapeAll(s[1..]) + "\"" + x);
    SameSum(Escape(s[0]), EscapeAll(s[1..]), "\"", x);
  }

  /** A quoted string ends where its own quote is: what follows it does not matter. */
  lemma {:induction false} StringUnique(s: string, t: string, x: string, y: string)
    requires EscapeAll(s) + "\"" + x == EscapeAll(t) + "\"" + y
    ensures s == t && x == y
    decreases |s|
  {
    if s == "" || t == "" {
      StringEnds(s, t, x, y);
    } else {
      HeadOfString(s, x);
      HeadOfString(t, y);
      StringUnique(s[1..], t[1..], x, y);
      assert s == [s[0]] + s[1..] && t == [t[0]] + t[1..];
    }
  }

  lemma FirstOfString(s: string, x: string)
    ensures (EscapeAll(s) + "\"" + x)[0] == '\"' <==> s == ""
  {
    if s != "" { assert (EscapeAll(s) + "\"" + x)[0] == Escape(s[0])[0]; }
  }

  lemma StringEnds(s: string, t: string, x: string, y: string)
    requires EscapeAll(s) + "\"" + x == EscapeAll(t) + "\"" + y && (s == "" || t == "")
    ensures s == t && x == y
  {
    FirstOfString(s, x);
    FirstOfString(t, y);
    assert (EscapeAll(s) + "\"" + x)[1..] == x && (EscapeAll(t) + "\"" + y)[1..] == y;
  }

  // ---------------------------------------------------------------- numbers

  /** What may follow a value: nothing, or punctuation. */
  predicate Delimited(x: string) { x == "" || x[0] == ',' || x[0] == ']' || x[0] == '}' }

  lemma {:induction false} DecimalInjective(m: nat, n: nat)
    requires Decimal(m) == Decimal(n)
    ensures m == n
  {
    var a, b := Decimal(m), Decimal(n);
    assert a[|a| - 1] == Digit(m % 10) && b[|b| - 1] == Digit(n % 10);
    if m >= 10 && n >= 10 {
      assert a[..|a| - 1] == Decimal(m / 10) && b[..|b| - 1] == Decimal(n / 10);
      DecimalInjective(m / 10, n / 10);
    }
  }

  /** Digits run up to the first character that is not one. */
  lemma DecimalUnique(m: nat, n: nat, x: string, y: string)
    requires Decimal(m) + x == Decimal(n) + y && Delimited(x) && Delimited(y)
    ensures m == n && x == y
  {
    var a, b := Decimal(m), Decimal(n);
    RunEnds(a, x);
    RunEnds(b, y);
    assert (a + x)[..|a|] == a && (b + y)[..|b|] == b && (a + x)[|a|..] == x && (b + y)[|b|..] == y;
    DecimalInjective(m, n);
  }

  /** Length of the leading digits. */
  function DigitRun(s: string): nat { if s == "" || !IsDigit(s[0]) then 0 else 1 + DigitRun(s[1..]) }

  lemma {:induction false} RunEnds(digits: string, x: string)
    requires (forall i :: 0 <= i < |digits| ==> IsDigit(digits[i])) && Delimited(x)
    ensures DigitRun(digits + x) == |digits|
  {
    if digits == "" {
      assert digits + x == x;
    } else {
      assert (digits + x)[1..] == digits[1..] + x;
      RunEnds(digits[1..], x);
    }
  }

  lemma SignOf(n: int, x: string)
    ensures (Encode(Number(n)) + x)[0] == '-' <==> n < 0
  {
    assert (Encode(Number(n)) + x)[0] == Encode(Number(n))[0];
  }

  lemma NegativeText(n: int, x: string)
    requires n < 0
    ensures Encode(Number(n)) + x == "-" + (Decimal(-n) + x)
  {
  }

  lemma NumberUnique(m: int, n: int, x: string, y: string)
    requires Encode(Number(m)) + x == Encode(Number(n)) + y && Delimited(x) && Delimited(y)
    ensures m == n && x == y
  {
    SignOf(m, x);
    SignOf(n, y);
    if m < 0 {
      NegativeText(m, x);
      NegativeText(n, y);
      SameTail('-', Decimal(-m) + x, Decimal(-n) + y);
      DecimalUnique(-m, -n, x, y);
    } else {
      DecimalUnique(m, n, x, y);
    }
  }

  // ---------------------------------------------------------------- values

  /** The first character of a text tells the kind of value. */
  lemma FirstOfValue(v: Value, x: string)
    ensures var c := (Encode(v) + x)[0];
            && (c == 'n' <==> v.Null?) && (c == '\"' <==> v.Text?) && (c == '{' <==> v.Object?)
            && (c == '-' || IsDigit(c) <==> v.Number?) && (c == '[' <==> v.Array?)
  {
    assert (Encode(v) + x)[0] == Encode(v)[0];
  }

  /** What follows a field inside its object. */
  function AfterField(rest: Fields, x: string): (r: string)
    ensures Delimited(r) && r != ""
  {
    if rest.NoFields? then "}" + x else "," + (EncodeFields(rest) + "}" + x)
  }

  lemma AfterFieldIs(rest: Fields, x: string)
    ensures (if rest.NoFields? then "" else "," + EncodeFields(rest)) + "}" + x == AfterField(rest, x)
  {
    if rest.Field? { SameSum(",", EncodeFields(rest), "}", x); }
  }

  lemma SameSum(a: string, b: string, c: string, d: string)
    ensures a + b + c + d == a + (b + c + d)
  {
  }

  lemma FieldText(f: Fields, x: string)
    requires f.Field?
    ensures EncodeFields(f) + "}" + x ==
            "\"" + (EscapeAll(f.name) + "\"" + (":" + (Encode(f.value) + AfterField(f.rest, x))))
  {
    Regroup("\"", EscapeAll(f.name), "\"", ":", Encode(f.value),
            if f.rest.NoFields? then "" else "," + EncodeFields(f.rest), "}", x);
    assert "\":" == "\"" + ":";
    AfterFieldIs(f.rest, x);
  }

  lemma Regroup(a: string, b: string, c: string, d: string, e: string, f: string, g: string, h: string)
    ensures a + b + (c + d) + e + f + g + h == a + (b + c + (d + (e + (f + g + h))))
  {
  }

  lemma ObjectText(f: Fields, x: string)
    ensures (Encode(Object(f)) + x)[1..] == EncodeFields(f) + "}" + x
  {
    SameSum("{", EncodeFields(f), "}", x);
  }

  /** What follows an item inside its list. */
  function AfterItem(tail: Items, x: string): (r: string)
    ensures Delimited(r) && r != ""
  {
    if tail.NoItems? then "]" + x else "," + (EncodeItems(tail) + "]" + x)
  }

  lemma ItemText(items: Items, x: string)
    requires items.Items?
    ensures EncodeItems(items) + "]" + x == Encode(items.head) + AfterItem(items.tail, x)
  {
    var rest := if items.tail.NoItems? then "" else "," + EncodeItems(items.tail);
    assert Encode(items.head) + rest + "]" + x == Encode(items.head) + (rest + "]" + x);
    if items.tail.Items? { SameSum(",", EncodeItems(items.tail), "]", x); }
  }

  lemma ArrayText(items: Items, x: string)
    ensures (Encode(Array(items)) + x)[1..] == EncodeItems(items) + "]" + x
  {
    SameSum("[", EncodeItems(items), "]", x);
  }

  lemma FirstOfItems(items: Items, x: string)
    ensures (EncodeItems(items) + "]" + x)[0] == ']' <==> items.NoItems?
  {
    if items.Items? {
      ItemText(items, x);
      FirstOfValue(items.head, AfterItem(items.tail, x));
    }
  }

  lemma AfterItemText(items: Items, x: string)
    ensures var r := AfterItem(items, x);
            && r[0] == (if items.NoItems? then ']' else ',')
            && r[1..] == (if items.NoItems? then x else EncodeItems(items) + "]" + x)
  {
  }

  lemma {:induction false} ItemsUnique(a: Items, b: Items, x: string, y: string)
    requires EncodeItems(a) + "]" + x == EncodeItems(b) + "]" + y
    ensures a == b && x == y
    decreases a
  {
    FirstOfItems(a, x);
    FirstOfItems(b, y);
    if a.NoItems? {
      assert (EncodeItems(a) + "]" + x)[1..] == x && (EncodeItems(b) + "]" + y)[1..] == y;
    } else {
      ItemText(a, x);
      ItemText(b, y);
      ValueUnique(a.head, b.head, AfterItem(a.tail, x), AfterItem(b.tail, y));
      AfterItemText(a.tail, x);
      AfterItemText(b.tail, y);
      if a.tail.Items? { ItemsUnique(a.tail, b.tail, x, y); }
    }
  }

  /** Two values with the same text, whatever punctuation follows, are the same value. */
  lemma {:induction false} ValueUnique(v: Value, w: Value, x: string, y: string)
    requires Encode(v) + x == Encode(w) + y && Delimited(x) && Delimited(y)
    ensures v == w && x == y
    decreases v
  {
    FirstOfValue(v, x);
    FirstOfValue(w, y);
    match v
    case Null => assert (Encode(v) + x)[4..] == x && (Encode(w) + y)[4..] == y;
    case Text(s) => TextUnique(s, w.text, x, y);
    case Number(n) => NumberUnique(n, w.number, x, y);
    case Array(items) =>
      ArrayText(items, x);
      ArrayText(w.items, y);
      ItemsUnique(items, w.items, x, y);
    case Object(f) =>
      ObjectText(f, x);
      ObjectText(w.fields, y);
      FieldsUnique(f, w.fields, x, y);
  }

  lemma TextUnique(s: string, t: string, x: string, y: string)
    requires Encode(Text(s)) + x == Encode(Text(t)) + y
    ensures s == t && x == y
  {
    SameSum("\"", EscapeAll(s), "\"", x);
    SameSum("\"", EscapeAll(t), "\"", y);
    SameTail('\"', EscapeAll(s) + "\"" + x, EscapeAll(t) + "\"" + y);
    StringUnique(s, t, x, y);
  }

  lemma {:induction false} FieldsUnique(f: Fields, g: Fields, x: string, y: string)
    requires EncodeFields(f) + "}" + x == EncodeFields(g) + "}" + y
    ensures f == g && x == y
    decreases f
  {
    FirstOfFields(f, x);
    FirstOfFields(g, y);
    if f.NoFields? {
      assert (EncodeFields(f) + "}" + x)[1..] == x && (EncodeFields(g) + "}" + y)[1..] == y;
    } else {
      var u, w := Encode(f.value) + AfterField(f.rest, x), Encode(g.value) + AfterField(g.rest, y);
      FieldText(f, x);
      FieldText(g, y);
      SameTail('\"', EscapeAll(f.name) + "\"" + (":" + u), EscapeAll(g.name) + "\"" + (":" + w));
      StringUnique(f.name, g.name, ":" + u, ":" + w);
      SameTail(':', u, w);
      ValueUnique(f.value, g.value, AfterField(f.rest, x), AfterField(g.rest, y));
      RestUnique(f.rest, g.rest, x, y);
      if f.rest.Field? {
        FieldsUnique(f.rest, g.rest, x, y);
      }
    }
  }

  lemma SameTail(c: char, u: string, w: string)
    requires [c] + u == [c] + w
    ensures u == w
  {
    assert ([c] + u)[1..] == u && ([c] + w)[1..] == w;
  }

  lemma FirstOfFields(f: Fields, x: string)
    ensures (EncodeFields(f) + "}" + x)[0] == '}' <==> f.NoFields?
  {
    if f.Field? { FieldText(f, x); }
  }

  lemma AfterFieldText(f: Fields, x: string)
    ensures var r := AfterField(f, x);
            && r[0] == (if f.NoFields? then '}' else ',')
            && r[1..] == (if f.NoFields? then x else EncodeFields(f) + "}" + x)
  {
  }

  lemma RestUnique(f: Fields, g: Fields, x: string, y: string)
    requires AfterField(f, x) == AfterField(g, y)
    ensures f.NoFields? <==> g.NoFields?
    ensures f.NoFields? ==> x == y
    ensures f.Field? ==> EncodeFields(f) + "}" + x == EncodeFields(g) + "}" + y
  {
    AfterFieldText(f, x);
    AfterFieldText(g, y);
  }

  /** The encoding is injective. */
  lemma EncodeInjective(v: Value, w: Value)
    requires Encode(v) == Encode(w)
    ensures v == w
  {
    assert Encode(v) + "" == Encode(w) + "";
    ValueUnique(v, w, "", "");
  }

  /** A list and an object, character by character. */
  lemma EncodedText()
    ensures Encode(Array(Items(Null, Items(Number(-7), NoItems)))) == "[null,-7]"
    ensures Encode(Object(Field("b", Text("x"), NoFields))) == "{\"b\":\"x\"}"
  {
    ListText();
    RecordText();
  }

  lemma ListText()
    ensures Encode(Array(Items(Null, Items(Number(-7), NoItems)))) == "[null,-7]"
  {
    assert Decimal(7) == "7";
    assert EncodeItems(Items(Number(-7), NoItems)) == "-7";
    assert EncodeItems(Items(Null, Items(Number(-7), NoItems))) == "null" + ("," + "-7");
  }

  lemma RecordText()
    ensures Encode(Object(Field("b", Text("x"), NoFields))) == "{\"b\":\"x\"}"
  {
    assert EscapeAll("x") == "x" && EscapeAll("b") == "b";
    assert EncodeFields(Field("b", Text("x"), NoFields)) == "\"b\":\"x\"";
  }

  /** The short escapes. */
  lemma EscapedText()
    ensures EscapeAll("\"\\\n\t\r") == "\\\"\\\\\\n\\t\\r"
  {
    assert EscapeAll("\r") == "\\r";
    assert EscapeAll("\t\r") == "\\t\\r" by { assert "\t\r"[1..] == "\r"; }
    assert EscapeAll("\n\t\r") == "\\n\\t\\r" by { assert "\n\t\r"[1..] == "\t\r"; }
    assert EscapeAll("\\\n\t\r") == "\\\\\\n\\t\\r" by { assert "\\\n\t\r"[1..] == "\n\t\r"; }
    assert "\"\\\n\t\r"[1..] == "\\\n\t\r";
  }
}
