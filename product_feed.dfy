/**
 * The product-feed parser of the parse_product_feed command: barcode fallback numbering,
 * the digit-stripping currency and integer readers, one record's normalisation, and the
 * loop of `handle` that groups categories and dosage forms and collects the issues.
 */
module ProductFeed {
  import opened Wrappers
  import opened Text
  import opened Seqs

  // ---------------------------------------------------------------------------------
  // JSON values and Python truthiness
  // ---------------------------------------------------------------------------------

  /** A JSON value of the feed (booleans and floats are not part of this model). */
  datatype Json = Null | Str(s: string) | Int(i: int) | Arr(items: seq<Json>) | Obj(fields: map<string, Json>)

  /** One record of the feed's `data` list: a JSON object. */
  type Record = map<string, Json>

  /** `raw.get(key)`: the value, or None when the key is absent. */
  function Get(raw: Record, key: string): Json
  {
    if key in raw then raw[key] else Null
  }

  /** Python truthiness of a JSON value: None, '', 0, [] and {} are false. */
  predicate Truthy(v: Json)
  {
    match v
    case Null => false
    case Str(s) => s != ""
    case Int(i) => i != 0
    case Arr(items) => items != []
    case Obj(fields) => fields != map[]
  }

  /** `v or default`. */
  function Or(v: Json, default: string): (r: Json)
    ensures Truthy(v) ==> r == v
    ensures !Truthy(v) ==> r == Str(default)
  {
    if Truthy(v) then v else Str(default)
  }

  /** `type(v).__name__` for the values that reach the "Unexpected type" branches. */
  function TypeName(v: Json): string
  {
    match v
    case Null => "NoneType"
    case Str(_) => "str"
    case Int(_) => "int"
    case Arr(_) => "list"
    case Obj(_) => "dict"
  }

  // ---------------------------------------------------------------------------------
  // String helpers: str.strip, str.lower, character filters
  // ---------------------------------------------------------------------------------

  /** The characters str.isspace accepts. */
  predicate IsSpace(c: char)
  {
    '\t' <= c <= '\r' || '\U{1C}' <= c <= '\U{1F}' || c == ' ' || c == '\U{85}' || c == '\U{A0}' ||
    c == '\U{1680}' || '\U{2000}' <= c <= '\U{200A}' || c == '\U{2028}' || c == '\U{2029}' ||
    c == '\U{202F}' || c == '\U{205F}' || c == '\U{3000}'
  }

  predicate AllSpace(s: string) { forall i :: 0 <= i < |s| ==> IsSpace(s[i]) }

  /** Leading whitespace removed: what is left is a suffix of s. */
  function TrimStart(s: string): (r: string)
    ensures |r| <= |s| && r == s[|s| - |r|..]
    ensures AllSpace(s[..|s| - |r|])
    ensures r != [] ==> !IsSpace(r[0])
    decreases |s|
  {
    if s != [] && IsSpace(s[0]) then
      var r := TrimStart(s[1..]);
      TrimStartStep(s, r);
      r
    else s
  }

  lemma TrimStartStep(s: string, r: string)
    requires s != [] && IsSpace(s[0])
    requires |r| <= |s| - 1 && r == s[1..][|s| - 1 - |r|..] && AllSpace(s[1..][..|s| - 1 - |r|])
    ensures r == s[|s| - |r|..] && AllSpace(s[..|s| - |r|])
  {
    assert s[1..][|s| - 1 - |r|..] == s[|s| - |r|..];
    var w := s[..|s| - |r|];
    forall i | 0 <= i < |w| ensures IsSpace(w[i]) {
      if i > 0 { assert w[i] == s[1..][..|s| - 1 - |r|][i - 1]; }
    }
  }

  /** Trailing whitespace removed: what is left is a prefix of s. */
  function TrimEnd(s: string): (r: string)
    ensures |r| <= |s| && r == s[..|r|]
    ensures AllSpace(s[|r|..])
    ensures r != [] ==> !IsSpace(r[|r| - 1])
    decreases |s|
  {
    if s != [] && IsSpace(s[|s| - 1]) then
      var r := TrimEnd(s[..|s| - 1]);
      TrimEndStep(s, r);
      r
    else s
  }

  lemma TrimEndStep(s: string, r: string)
    requires s != [] && IsSpace(s[|s| - 1])
    requires |r| <= |s| - 1 && r == s[..|s| - 1][..|r|] && AllSpace(s[..|s| - 1][|r|..])
    ensures r == s[..|r|] && AllSpace(s[|r|..])
  {
    assert s[..|s| - 1][..|r|] == s[..|r|];
    var w := s[|r|..];
    forall i | 0 <= i < |w| ensures IsSpace(w[i]) {
      if i < |w| - 1 { assert w[i] == s[..|s| - 1][|r|..][i]; }
    }
  }

  /** `s.strip()`. */
  function Strip(s: string): (r: string)
    ensures r == [] <==> AllSpace(s)
    ensures r != [] ==> !IsSpace(r[0]) && !IsSpace(r[|r| - 1])
  {
    TrimBoth(s);
    TrimEnd(TrimStart(s))
  }

  lemma TrimBoth(s: string)
    ensures TrimEnd(TrimStart(s)) == [] <==> AllSpace(s)
    ensures TrimEnd(TrimStart(s)) != [] ==> !IsSpace(TrimEnd(TrimStart(s))[0])
  {
    var t := TrimStart(s);
    var r := TrimEnd(t);
    if t == [] {
      assert s[..|s|] == s;
    } else {
      assert t[0] == s[|s| - |t|];
      if r != [] { assert r[0] == t[0]; }
    }
  }

  /** str.strip removes exactly the whitespace around a word and nothing of the word. */
  lemma StripSurrounded(w1: string, t: string, w2: string)
    requires AllSpace(w1) && AllSpace(w2)
    requires t != [] ==> !IsSpace(t[0]) && !IsSpace(t[|t| - 1])
    ensures Strip(w1 + t + w2) == t
  {
    var s := w1 + t + w2;
    if t == [] {
      assert AllSpace(s) by {
        forall i | 0 <= i < |s| ensures IsSpace(s[i]) {
          if i < |w1| { assert s[i] == w1[i]; } else { assert s[i] == w2[i - |w1|]; }
        }
      }
    } else {
      var u := t + w2;
      assert u[0] == t[0];
      assert s == w1 + u;
      TrimStartSpaces(w1, u);
      assert TrimStart(u) == u;
      TrimEndSpaces(t, w2);
      assert TrimEnd(t) == t;
    }
  }

  lemma {:induction false} TrimStartSpaces(w: string, u: string)
    requires AllSpace(w)
    requires u != [] ==> !IsSpace(u[0])
    ensures TrimStart(w + u) == TrimStart(u)
    decreases |w|
  {
    if w != [] {
      assert (w + u)[0] == w[0];
      assert (w + u)[1..] == w[1..] + u;
      TrimStartSpaces(w[1..], u);
    } else {
      assert w + u == u;
    }
  }

  lemma {:induction false} TrimEndSpaces(u: string, w: string)
    requires AllSpace(w)
    requires u != [] ==> !IsSpace(u[|u| - 1])
    ensures TrimEnd(u + w) == TrimEnd(u)
    decreases |w|
  {
    if w != [] {
      assert (u + w)[|u + w| - 1] == w[|w| - 1];
      assert (u + w)[..|u + w| - 1] == u + w[..|w| - 1];
      TrimEndSpaces(u, w[..|w| - 1]);
    } else {
      assert u + w == u;
    }
  }

  /** Stripping twice is stripping once. */
  lemma StripIdempotent(s: string)
    ensures Strip(Strip(s)) == Strip(s)
  {
    var t := Strip(s);
    StripSurrounded([], t, []);
    assert [] + t + [] == t;
  }

  /**
   * `c.lower()` on ASCII and Latin-1 letters: A–Z and À–Þ (except ×) map to their
   * lower-case forms, every other character stays as it is.
   */
  function LowerChar(c: char): char
  {
    if 'A' <= c <= 'Z' || ('\U{C0}' <= c <= '\U{DE}' && c != '\U{D7}') then ((c as int) + 32) as char else c
  }

  /** `s.lower()`, character by character. */
  function Lower(s: string): (r: string)
    ensures |r| == |s| && forall i :: 0 <= i < |s| ==> r[i] == LowerChar(s[i])
    decreases |s|
  {
    if s == [] then [] else [LowerChar(s[0])] + Lower(s[1..])
  }

  /** Lower-casing a lower-cased name changes nothing, so a group key is its own key. */
  lemma LowerIdempotent(s: string)
    ensures Lower(Lower(s)) == Lower(s)
  {
    var r := Lower(s);
    assert forall i :: 0 <= i < |r| ==> LowerChar(r[i]) == r[i];
  }

  /** The characters of s that `keep` accepts, in order (the regex `[^…]` deleted). */
  function Filter(s: string, keep: char -> bool): (r: string)
    ensures |r| <= |s|
    ensures forall i :: 0 <= i < |r| ==> keep(r[i])
    decreases |s|
  {
    if s == [] then [] else (if keep(s[0]) then [s[0]] else []) + Filter(s[1..], keep)
  }

  /** Filtering twice is filtering once with both tests. */
  lemma {:induction false} FilterTwice(s: string, p: char -> bool, q: char -> bool, pq: char -> bool)
    requires forall c :: pq(c) == (p(c) && q(c))
    ensures Filter(Filter(s, p), q) == Filter(s, pq)
    decreases |s|
  {
    if s != [] {
      FilterTwice(s[1..], p, q, pq);
      var head := if p(s[0]) then [s[0]] else [];
      FilterAppend(head, Filter(s[1..], p), q);
      if p(s[0]) {
        assert head[1..] == [];
        assert Filter(head, q) == (if q(s[0]) then [s[0]] else []) + Filter([], q);
      }
    }
  }

  lemma {:induction false} FilterAppend(a: string, b: string, q: char -> bool)
    ensures Filter(a + b, q) == Filter(a, q) + Filter(b, q)
    decreases |a|
  {
    if a == [] {
      assert a + b == b;
    } else {
      assert (a + b)[0] == a[0];
      assert (a + b)[1..] == a[1..] + b;
      FilterAppend(a[1..], b, q);
    }
  }

  /** The characters `[\d-]` keeps (ASCII digits). */
  predicate IsIntChar(c: char) { IsDigit(c) || c == '-' }

  /** The characters `[\d,.-]` keeps. */
  predicate IsCurrencyChar(c: char) { IsDigit(c) || c == ',' || c == '.' || c == '-' }

  /** `re.sub(r'[^\d-]', '', value)`. */
  function CleanInt(s: string): string
  {
    Filter(s, IsIntChar)
  }

  /** `re.sub(r'[^\d,.-]', '', value)` followed by `.replace(',', '').replace('.', '')`. */
  function CleanCurrency(s: string): string
  {
    Filter(Filter(Filter(s, IsCurrencyChar), c => c != ','), c => c != '.')
  }

  /** Deleting the separators after keeping them leaves exactly the digits and minus signs. */
  lemma CleanCurrencyIsCleanInt(s: string)
    ensures CleanCurrency(s) == CleanInt(s)
  {
    var noComma := (c: char) => c != ',';
    var noDot := (c: char) => c != '.';
    var kept := (c: char) => IsCurrencyChar(c) && c != ',';
    FilterTwice(s, IsCurrencyChar, noComma, kept);
    FilterTwice(s, kept, noDot, IsIntChar);
  }

  /**
   * `int(t)` and `Decimal(t)` on a string made only of digits and minus signs: they accept
   * one optional leading minus followed by at least one digit.
   */
  function ReadInt(t: string): Option<int>
  {
    if t != [] && t[0] == '-' then
      (if |t| > 1 && AllDigits(t[1..]) then Some(-(DigitsValue(t[1..]) as int)) else None)
    else if t != [] && AllDigits(t) then Some(DigitsValue(t))
    else None
  }

  /** `str(i)`. */
  function IntToString(i: int): string
  {
    if i < 0 then "-" + NatToString(-i) else NatToString(i)
  }

  /** Reading back what str wrote gives the integer again. */
  lemma ReadIntRoundTrip(i: int)
    ensures ReadInt(IntToString(i)) == Some(i)
  {
    if i < 0 {
      var t := NatToString(-i);
      NatToStringRoundTrip(-i);
      assert ("-" + t)[1..] == t;
    } else {
      NatToStringRoundTrip(i);
    }
  }

  /** A rendered integer survives the digit filter unchanged. */
  lemma CleanIntOfRendered(i: int)
    ensures CleanInt(IntToString(i)) == IntToString(i)
  {
    FilterKeepsAll(IntToString(i), IsIntChar);
  }

  lemma {:induction false} FilterKeepsAll(s: string, keep: char -> bool)
    requires forall i :: 0 <= i < |s| ==> keep(s[i])
    ensures Filter(s, keep) == s
    decreases |s|
  {
    if s != [] {
      FilterKeepsAll(s[1..], keep);
    }
  }

  // ---------------------------------------------------------------------------------
  // The field parsers
  // ---------------------------------------------------------------------------------

  /** The problems a record can carry, each reported as one line of `errors`. */
  datatype Issue =
    | FallbackBarcode
    | Unparseable(field: string, original: string)
    | NotADecimal(field: string, original: string)
    | NotAnInteger(field: string, original: string)
    | UnexpectedType(field: string, typeName: string)

  /** The text of an issue, as the command writes it. */
  function Message(i: Issue): string
  {
    match i
    case FallbackBarcode => "Missing or invalid product_code; generated fallback identifier."
    case Unparseable(f, v) => "Unable to parse " + f + ": original value \"" + v + "\""
    case NotADecimal(f, v) => "Unable to parse " + f + " as decimal: \"" + v + "\""
    case NotAnInteger(f, v) => "Unable to parse " + f + " as integer: \"" + v + "\""
    case UnexpectedType(f, t) => "Unexpected type for " + f + ": " + t
  }

  /** What a field parser returns, with the issue it appends to the caller's list, if any. */
  datatype Parsed = Parsed(value: Option<int>, issue: Option<Issue>)

  function IssuesOf(p: Parsed): seq<Issue>
  {
    if p.issue.Some? then [p.issue.value] else []
  }

  /** `_parse_currency`: the Decimal is an integer, the count of whatever digits remain. */
  function ParseCurrency(v: Json, field: string): (r: Parsed)
    ensures r.value.Some? ==> r.issue.None?
    ensures r.issue.Some? ==> r.value.None? && !r.issue.value.FallbackBarcode? && r.issue.value.field == field
  {
    match v
    case Null => Parsed(None, None)
    case Int(i) => Parsed(Some(i), None)
    case Str(s) =>
      if s == "" then Parsed(None, None)
      else
        var cleaned := CleanCurrency(s);
        if cleaned == "" then Parsed(None, Some(Unparseable(field, s)))
        else if ReadInt(cleaned).Some? then Parsed(ReadInt(cleaned), None)
        else Parsed(None, Some(NotADecimal(field, s)))
    case _ => Parsed(None, Some(UnexpectedType(field, TypeName(v))))
  }

  /** `_parse_int`. */
  function ParseInt(v: Json, field: string): (r: Parsed)
    ensures r.value.Some? ==> r.issue.None?
    ensures r.issue.Some? ==> r.value.None? && !r.issue.value.FallbackBarcode? && r.issue.value.field == field
  {
    match v
    case Null => Parsed(None, None)
    case Int(i) => Parsed(Some(i), None)
    case Str(s) =>
      if s == "" then Parsed(None, None)
      else
        var cleaned := CleanInt(s);
        if cleaned == "" then Parsed(None, Some(Unparseable(field, s)))
        else if ReadInt(cleaned).Some? then Parsed(ReadInt(cleaned), None)
        else Parsed(None, Some(NotAnInteger(field, s)))
    case _ => Parsed(None, Some(UnexpectedType(field, TypeName(v))))
  }

  /**
   * Because the separators are deleted rather than read, the currency parser reads every
   * value as the integer parser does, and reports a problem on exactly the same inputs.
   */
  lemma CurrencyReadsAsInt(v: Json, f: string, g: string)
    ensures ParseCurrency(v, f).value == ParseInt(v, g).value
    ensures ParseCurrency(v, f).issue.None? <==> ParseInt(v, g).issue.None?
  {
    if v.Str? {
      CleanCurrencyIsCleanInt(v.s);
    }
  }

  /** A rendered integer, given as text, is read back as itself and raises no issue. */
  lemma ParseIntRoundTrip(i: int, field: string)
    ensures ParseInt(Str(IntToString(i)), field) == Parsed(Some(i), None)
  {
    CleanIntOfRendered(i);
    ReadIntRoundTrip(i);
    assert IntToString(i) != "" by {
      if i < 0 { assert |IntToString(i)| == 1 + |NatToString(-i)|; }
    }
  }

  /** "1,500.00" is read as 150000: the decimal point is deleted, not interpreted. */
  lemma GroupedPriceExample()
    ensures ParseCurrency(Str("1,500.00"), "product_price") == Parsed(Some(150000), None)
  {
    CleanCurrencyIsCleanInt("1,500.00");
    GroupedPriceCleaned();
    GroupedPriceRead();
  }

  lemma GroupedPriceCleaned()
    ensures CleanInt("1,500.00") == "150000"
  {
    var a, b, c, d, e := "1", ",", "500", ".", "00";
    assert "1,500.00" == a + (b + (c + (d + e)));
    FilterFive(a, b, c, d, e, IsIntChar);
    GroupedPricePieces();
    assert a + ([] + (c + ([] + e))) == "150000";
  }

  lemma FilterFive(a: string, b: string, c: string, d: string, e: string, q: char -> bool)
    ensures Filter(a + (b + (c + (d + e))), q) == Filter(a, q) + (Filter(b, q) + (Filter(c, q) + (Filter(d, q) + Filter(e, q))))
  {
    FilterAppend(d, e, q);
    FilterAppend(c, d + e, q);
    FilterAppend(b, c + (d + e), q);
    FilterAppend(a, b + (c + (d + e)), q);
  }

  lemma GroupedPricePieces()
    ensures Filter("1", IsIntChar) == "1" && Filter("500", IsIntChar) == "500"
    ensures Filter("00", IsIntChar) == "00"
    ensures Filter(",", IsIntChar) == [] && Filter(".", IsIntChar) == []
  {
    FilterKeepsAll("1", IsIntChar);
    FilterKeepsAll("500", IsIntChar);
    FilterKeepsAll("00", IsIntChar);
    assert ","[1..] == [] && "."[1..] == [];
  }

  lemma GroupedPriceRead()
    ensures ReadInt("150000") == Some(150000)
  {
    var t := "150000";
    assert AllDigits(t);
    assert DigitsValue(t[..1]) == 1 by { assert t[..1][..0] == []; }
    assert DigitsValue(t[..2]) == 15 by { assert t[..2][..1] == t[..1]; }
    assert DigitsValue(t[..3]) == 150 by { assert t[..3][..2] == t[..2]; }
    assert DigitsValue(t[..4]) == 1500 by { assert t[..4][..3] == t[..3]; }
    assert DigitsValue(t[..5]) == 15000 by { assert t[..5][..4] == t[..4]; }
    assert DigitsValue(t) == 150000 by { assert t[..5] == t[..|t| - 1]; }
  }

  // ---------------------------------------------------------------------------------
  // One record
  // ---------------------------------------------------------------------------------

  const FallbackPrefix: string := "BARCODEERROR"

  /** `barcode.startswith('BARCODEERROR')`. */
  predicate IsFallback(b: string)
  {
    |b| >= |FallbackPrefix| && b[..|FallbackPrefix|] == FallbackPrefix
  }

  /** `_normalize_barcode`: a non-blank text code, stripped, or the numbered fallback. */
  function NormalizeBarcode(v: Json, counter: nat): (r: string)
    ensures v.Str? && !AllSpace(v.s) ==> r == Strip(v.s)
    ensures !(v.Str? && !AllSpace(v.s)) ==> r == FallbackPrefix + NatToString(counter)
    ensures r != []
  {
    if v.Str? && v.s != "" && Strip(v.s) != "" then Strip(v.s) else FallbackPrefix + NatToString(counter)
  }

  /** A fallback barcode gives back the counter it was numbered with. */
  lemma FallbackNumber(counter: nat)
    ensures IsFallback(FallbackPrefix + NatToString(counter))
    ensures (FallbackPrefix + NatToString(counter))[|FallbackPrefix|..] == NatToString(counter)
    ensures DigitsValue((FallbackPrefix + NatToString(counter))[|FallbackPrefix|..]) == counter
  {
    var b := FallbackPrefix + NatToString(counter);
    assert b[..|FallbackPrefix|] == FallbackPrefix;
    assert b[|FallbackPrefix|..] == NatToString(counter);
    NatToStringRoundTrip(counter);
  }

  /** Fallbacks numbered differently are different barcodes. */
  lemma FallbacksDiffer(m: nat, n: nat)
    requires m != n
    ensures FallbackPrefix + NatToString(m) != FallbackPrefix + NatToString(n)
  {
    FallbackNumber(m);
    FallbackNumber(n);
  }

  /** The ParsedProduct record. */
  datatype ParsedProduct = ParsedProduct(
    sourceId: Json,
    name: Json,
    barcode: string,
    categoryName: Json,
    dosageFormName: Json,
    quantity: Option<int>,
    cost: Option<int>,
    price: Option<int>,
    stockAlert: Option<int>,
    expirationDate: Json,
    note: Json,
    supplierName: Option<string>,
    errors: seq<Issue>)

  const UnknownCategory: string := "Catégorie inconnue"
  const UnknownDosageForm: string := "Forme inconnue"

  /**
   * `raw.get('category', {})`: an absent key reads as an empty object; a present value
   * that is not an object has no `.get`, and the command stops with an AttributeError.
   */
  function CategoryObject(raw: Record): Option<map<string, Json>>
  {
    if "category" !in raw then Some(map[])
    else if raw["category"].Obj? then Some(raw["category"].fields)
    else None
  }

  /** `_parse_single_product`, or None where it raises. */
  function ParseSingleProduct(raw: Record, counter: nat): (r: Option<ParsedProduct>)
  {
    var barcode := NormalizeBarcode(Get(raw, "product_code"), counter);
    var flag := if IsFallback(barcode) then [FallbackBarcode] else [];
    var category := Or(Get(raw, "product_barcode_symbology"), UnknownCategory);
    match CategoryObject(raw)
    case None => None
    case Some(c) =>
      var dosage := Or(Get(c, "category_name"), UnknownDosageForm);
      var cost := ParseCurrency(Get(raw, "product_cost"), "product_cost");
      var price := ParseCurrency(Get(raw, "product_price"), "product_price");
      var quantity := ParseInt(Get(raw, "product_quantity"), "product_quantity");
      var alert := ParseInt(Get(raw, "product_stock_alert"), "product_stock_alert");
      Some(ParsedProduct(
        Get(raw, "id"), Or(Get(raw, "product_name"), ""), barcode, category, dosage,
        quantity.value, cost.value, price.value, alert.value,
        Get(raw, "product_date_peremption"), Get(raw, "product_note"), None,
        flag + FieldIssues(raw)))
  }

  /** The issues of the four parsed fields, in the order they are parsed. */
  function FieldIssues(raw: Record): (r: seq<Issue>)
    ensures |r| <= 4 && FallbackBarcode !in r
  {
    IssuesOf(ParseCurrency(Get(raw, "product_cost"), "product_cost")) +
    IssuesOf(ParseCurrency(Get(raw, "product_price"), "product_price")) +
    IssuesOf(ParseInt(Get(raw, "product_quantity"), "product_quantity")) +
    IssuesOf(ParseInt(Get(raw, "product_stock_alert"), "product_stock_alert"))
  }

  /** A record fails to parse only when its `category` is present and not an object. */
  lemma ParseSingleProductFails(raw: Record, counter: nat)
    ensures ParseSingleProduct(raw, counter).None? <==> "category" in raw && !raw["category"].Obj?
  {
  }

  /**
   * The fallback issue is reported, and reported first, exactly when the barcode starts
   * with the fallback prefix; at most one issue per parsed field follows it.
   */
  lemma ParseSingleProductIssues(raw: Record, counter: nat, p: ParsedProduct)
    requires ParseSingleProduct(raw, counter) == Some(p)
    ensures p.barcode == NormalizeBarcode(Get(raw, "product_code"), counter)
    ensures FallbackBarcode in p.errors <==> IsFallback(p.barcode)
    ensures IsFallback(p.barcode) ==> p.errors[0] == FallbackBarcode
    ensures |p.errors| <= 5
  {
    var flag := if IsFallback(p.barcode) then [FallbackBarcode] else [];
    assert p.errors == flag + FieldIssues(raw);
  }

  /**
   * The category and dosage-form names are never falsy: an empty or missing name becomes
   * its placeholder, and a given name is kept as it is.
   */
  lemma ParseSingleProductNames(raw: Record, counter: nat, p: ParsedProduct)
    requires ParseSingleProduct(raw, counter) == Some(p)
    ensures Truthy(p.categoryName) && Truthy(p.dosageFormName)
    ensures Truthy(Get(raw, "product_barcode_symbology")) ==> p.categoryName == Get(raw, "product_barcode_symbology")
    ensures !Truthy(Get(raw, "product_barcode_symbology")) ==> p.categoryName == Str(UnknownCategory)
    ensures "category" !in raw ==> p.dosageFormName == Str(UnknownDosageForm)
  {
  }

  // ---------------------------------------------------------------------------------
  // Grouping by lower-cased name
  // ---------------------------------------------------------------------------------

  /**
   * One entry of the `categories` or `dosage_forms` dict: its key (the lower-cased name),
   * the first spelling seen, and the source ids appended so far.
   */
  datatype Group = Group(key: string, name: string, sources: seq<Json>)

  /** A name and the source id it is recorded with. */
  datatype Entry = Entry(name: string, id: Json)

  /** Where the dict holds `key`: the first group with that key, or |gs| when none has it. */
  function Position(gs: seq<Group>, key: string): (i: nat)
    ensures i <= |gs|
    ensures i < |gs| ==> gs[i].key == key
    ensures forall j :: 0 <= j < i ==> gs[j].key != key
    decreases |gs|
  {
    if gs == [] then 0 else if gs[0].key == key then 0 else 1 + Position(gs[1..], key)
  }

  /** `groups.setdefault(name.lower(), {'name': name, 'source_ids': []})['source_ids'].append(id)`. */
  function AddTo(gs: seq<Group>, name: string, id: Json): seq<Group>
  {
    var k := Lower(name);
    var i := Position(gs, k);
    if i == |gs| then gs + [Group(k, name, [id])]
    else gs[i := gs[i].(sources := gs[i].sources + [id])]
  }

  /** The dict the loop builds from a run of entries, in insertion order. */
  function Grouping(es: seq<Entry>): seq<Group>
    decreases |es|
  {
    if es == [] then [] else AddTo(Grouping(es[..|es| - 1]), es[|es| - 1].name, es[|es| - 1].id)
  }

  /** The ids of the entries whose name lower-cases to key, in order. */
  function SourcesOf(es: seq<Entry>, key: string): seq<Json>
    decreases |es|
  {
    if es == [] then []
    else SourcesOf(es[..|es| - 1], key) + (if Lower(es[|es| - 1].name) == key then [es[|es| - 1].id] else [])
  }

  /** The first spelling among the entries whose name lower-cases to key. */
  function FirstName(es: seq<Entry>, key: string): Option<string>
    decreases |es|
  {
    if es == [] then None
    else if FirstName(es[..|es| - 1], key).Some? then FirstName(es[..|es| - 1], key)
    else if Lower(es[|es| - 1].name) == key then Some(es[|es| - 1].name)
    else None
  }

  predicate UniqueKeys(gs: seq<Group>)
  {
    forall i, j :: 0 <= i < j < |gs| ==> gs[i].key != gs[j].key
  }

  /**
   * What the dict holds after a run of entries: one group per key, keyed by its own name
   * lower-cased, named by the first spelling, holding every id of that key in order; and
   * a key is present exactly when some entry has it.
   */
  ghost predicate Grouped(es: seq<Entry>, gs: seq<Group>)
  {
    UniqueKeys(gs) &&
    (forall i :: 0 <= i < |gs| ==>
       gs[i].key == Lower(gs[i].name) && FirstName(es, gs[i].key) == Some(gs[i].name) &&
       gs[i].sources == SourcesOf(es, gs[i].key)) &&
    (forall k :: Position(gs, k) < |gs| <==> SourcesOf(es, k) != [])
  }

  lemma {:induction false} FirstNameWhenSources(es: seq<Entry>, key: string)
    ensures FirstName(es, key).Some? <==> SourcesOf(es, key) != []
    decreases |es|
  {
    if es != [] {
      FirstNameWhenSources(es[..|es| - 1], key);
    }
  }

  /** Groups with the same keys in the same places are found at the same positions. */
  lemma SamePositions(gs: seq<Group>, hs: seq<Group>, key: string)
    requires |gs| == |hs| && forall j :: 0 <= j < |gs| ==> gs[j].key == hs[j].key
    ensures Position(gs, key) == Position(hs, key)
  {
  }

  /** A key a new last group does not share is found where it was before. */
  lemma PositionAfterAppend(gs: seq<Group>, g: Group, key: string)
    ensures Position(gs + [g], key) ==
              if Position(gs, key) < |gs| then Position(gs, key)
              else if g.key == key then |gs| else |gs| + 1
  {
    var hs := gs + [g];
    var p, q := Position(gs, key), Position(hs, key);
    if p < |gs| {
      assert hs[p].key == key;
    } else {
      if g.key == key { assert hs[|gs|].key == key; }
    }
  }

  /** One `setdefault(...).append(...)` keeps the dict grouped. */
  lemma GroupedStep(es: seq<Entry>, gs: seq<Group>, e: Entry)
    requires Grouped(es, gs)
    ensures Grouped(es + [e], AddTo(gs, e.name, e.id))
  {
    if Position(gs, Lower(e.name)) == |gs| {
      GroupedStepNew(es, gs, e);
    } else {
      GroupedStepExisting(es, gs, e);
    }
  }

  /** Appending an entry appends its id to the ids of its key, and only there. */
  lemma SourcesAfterAppend(es: seq<Entry>, e: Entry)
    ensures forall k :: SourcesOf(es + [e], k) == SourcesOf(es, k) + (if Lower(e.name) == k then [e.id] else [])
    ensures forall k :: Lower(e.name) != k ==> FirstName(es + [e], k) == FirstName(es, k)
  {
    var es' := es + [e];
    assert es'[..|es'| - 1] == es && es'[|es'| - 1] == e;
  }

  /** A name whose key is new opens a group of its own at the end. */
  lemma GroupedStepNew(es: seq<Entry>, gs: seq<Group>, e: Entry)
    requires Grouped(es, gs) && Position(gs, Lower(e.name)) == |gs|
    ensures Grouped(es + [e], AddTo(gs, e.name, e.id))
  {
    assert AddTo(gs, e.name, e.id) == gs + [Group(Lower(e.name), e.name, [e.id])];
    NewKeys(es, gs, e);
    NewGroups(es, gs, e);
  }

  lemma NewKeys(es: seq<Entry>, gs: seq<Group>, e: Entry)
    requires Grouped(es, gs) && Position(gs, Lower(e.name)) == |gs|
    ensures var gs' := gs + [Group(Lower(e.name), e.name, [e.id])];
            forall k :: Position(gs', k) < |gs'| <==> SourcesOf(es + [e], k) != []
  {
    var gs' := gs + [Group(Lower(e.name), e.name, [e.id])];
    SourcesAfterAppend(es, e);
    forall k ensures Position(gs', k) < |gs'| <==> SourcesOf(es + [e], k) != [] {
      PositionAfterAppend(gs, Group(Lower(e.name), e.name, [e.id]), k);
    }
  }

  lemma NewGroups(es: seq<Entry>, gs: seq<Group>, e: Entry)
    requires Grouped(es, gs) && Position(gs, Lower(e.name)) == |gs|
    ensures var gs' := gs + [Group(Lower(e.name), e.name, [e.id])];
            UniqueKeys(gs') &&
            forall j :: 0 <= j < |gs'| ==>
              gs'[j].key == Lower(gs'[j].name) && FirstName(es + [e], gs'[j].key) == Some(gs'[j].name) &&
              gs'[j].sources == SourcesOf(es + [e], gs'[j].key)
  {
    var es' := es + [e];
    var k0 := Lower(e.name);
    var gs' := gs + [Group(k0, e.name, [e.id])];
    SourcesAfterAppend(es, e);
    LowerIdempotent(e.name);
    FirstNameWhenSources(es, k0);
    assert es'[..|es'| - 1] == es && es'[|es'| - 1] == e;
    assert FirstName(es', k0) == Some(e.name);
    forall j | 0 <= j < |gs|
      ensures gs'[j].key == Lower(gs'[j].name) && FirstName(es', gs'[j].key) == Some(gs'[j].name) &&
              gs'[j].sources == SourcesOf(es', gs'[j].key)
    {
      assert gs'[j] == gs[j] && gs[j].key != k0;
    }
  }

  /** A name whose key is present appends its id to that group and changes nothing else. */
  lemma GroupedStepExisting(es: seq<Entry>, gs: seq<Group>, e: Entry)
    requires Grouped(es, gs) && Position(gs, Lower(e.name)) < |gs|
    ensures Grouped(es + [e], AddTo(gs, e.name, e.id))
  {
    var i := Position(gs, Lower(e.name));
    var gs' := gs[i := gs[i].(sources := gs[i].sources + [e.id])];
    assert AddTo(gs, e.name, e.id) == gs';
    SamePositionsAfterUpdate(gs, i, gs'[i]);
    ExistingGroups(es, gs, e);
    ExistingKeys(es, gs, e);
  }

  lemma ExistingGroups(es: seq<Entry>, gs: seq<Group>, e: Entry)
    requires Grouped(es, gs) && Position(gs, Lower(e.name)) < |gs|
    ensures var gs' := AddTo(gs, e.name, e.id);
            forall j :: 0 <= j < |gs'| ==>
              gs'[j].key == Lower(gs'[j].name) && FirstName(es + [e], gs'[j].key) == Some(gs'[j].name) &&
              gs'[j].sources == SourcesOf(es + [e], gs'[j].key)
  {
    var es' := es + [e];
    var k0 := Lower(e.name);
    var i := Position(gs, k0);
    var gs' := gs[i := gs[i].(sources := gs[i].sources + [e.id])];
    SourcesAfterAppend(es, e);
    FirstNameWhenSources(es, k0);
    assert es'[..|es'| - 1] == es && es'[|es'| - 1] == e;
    assert FirstName(es', k0) == FirstName(es, k0);
    forall j | 0 <= j < |gs'| && j != i
      ensures gs'[j].key == Lower(gs'[j].name) && FirstName(es', gs'[j].key) == Some(gs'[j].name) &&
              gs'[j].sources == SourcesOf(es', gs'[j].key)
    {
      assert gs'[j] == gs[j] && gs[j].key != k0;
    }
  }

  lemma ExistingKeys(es: seq<Entry>, gs: seq<Group>, e: Entry)
    requires Grouped(es, gs) && Position(gs, Lower(e.name)) < |gs|
    ensures var gs' := AddTo(gs, e.name, e.id);
            UniqueKeys(gs') && forall k :: Position(gs', k) < |gs'| <==> SourcesOf(es + [e], k) != []
  {
    var i := Position(gs, Lower(e.name));
    var gs' := gs[i := gs[i].(sources := gs[i].sources + [e.id])];
    SamePositionsAfterUpdate(gs, i, gs'[i]);
    SourcesAfterAppend(es, e);
  }

  lemma SamePositionsAfterUpdate(gs: seq<Group>, i: nat, g: Group)
    requires i < |gs| && g.key == gs[i].key
    ensures forall k :: Position(gs[i := g], k) == Position(gs, k)
  {
    forall k ensures Position(gs[i := g], k) == Position(gs, k) {
      SamePositions(gs[i := g], gs, k);
    }
  }

  /** The dict built by the loop is grouped as described by Grouped. */
  lemma {:induction false} GroupingMeaning(es: seq<Entry>)
    ensures Grouped(es, Grouping(es))
    decreases |es|
  {
    if es != [] {
      var pre := es[..|es| - 1];
      GroupingMeaning(pre);
      GroupedStep(pre, Grouping(pre), es[|es| - 1]);
      assert pre + [es[|es| - 1]] == es;
    }
  }

  // ---------------------------------------------------------------------------------
  // The loop of `handle`
  // ---------------------------------------------------------------------------------

  /** One line of the `errors` output: the record's source id, its 1-based index, the issue. */
  datatype FeedError = FeedError(sourceId: Json, index: nat, issue: Issue)

  /** The `errors` lines one product contributes, in the order of its issues. */
  function ErrorsFor(p: ParsedProduct, index: nat): seq<FeedError>
  {
    seq(|p.errors|, k requires 0 <= k < |p.errors| => FeedError(p.sourceId, index, p.errors[k]))
  }

  /** What the loop has gathered: the two dicts, the products and the error lines. */
  datatype Feed = Feed(categories: seq<Group>, dosageForms: seq<Group>, products: seq<ParsedProduct>, errors: seq<FeedError>)

  /** The record, by 1-based index, whose processing raised and stopped the command. */
  datatype Crash = Crash(index: nat)

  /** `barcode_error_counter` after a run of products: 1, plus one per flagged barcode. */
  function Counter(ps: seq<ParsedProduct>): (n: nat)
    ensures n >= 1
    decreases |ps|
  {
    if ps == [] then 1 else Counter(ps[..|ps| - 1]) + (if IsFallback(ps[|ps| - 1].barcode) then 1 else 0)
  }

  /**
   * One pass of the loop body on the record at 1-based `index`: parsing raises on a
   * non-object category, and `.lower()` raises on a name that is not text.
   */
  function Step(f: Feed, raw: Record, index: nat): Result<Feed, Crash>
  {
    match ParseSingleProduct(raw, Counter(f.products))
    case None => Failure(Crash(index))
    case Some(p) =>
      if !p.categoryName.Str? || !p.dosageFormName.Str? then Failure(Crash(index))
      else Success(Feed(
        AddTo(f.categories, p.categoryName.s, p.sourceId),
        AddTo(f.dosageForms, p.dosageFormName.s, p.sourceId),
        f.products + [p],
        f.errors + ErrorsFor(p, index)))
  }

  /** The step on a record that parses to p with text names. */
  lemma StepOf(f: Feed, raw: Record, index: nat, p: ParsedProduct)
    requires ParseSingleProduct(raw, Counter(f.products)) == Some(p)
    requires p.categoryName.Str? && p.dosageFormName.Str?
    ensures Step(f, raw, index) == Success(Feed(
              AddTo(f.categories, p.categoryName.s, p.sourceId),
              AddTo(f.dosageForms, p.dosageFormName.s, p.sourceId),
              f.products + [p],
              f.errors + ErrorsFor(p, index)))
  {
  }

  lemma CounterAppend(ps: seq<ParsedProduct>, p: ParsedProduct)
    ensures Counter(ps + [p]) == Counter(ps) + (if IsFallback(p.barcode) then 1 else 0)
  {
    assert (ps + [p])[..|ps|] == ps;
  }

  /** The result of the loop over the records. */
  function FeedOf(records: seq<Record>): Result<Feed, Crash>
    decreases |records|
  {
    if records == [] then Success(Feed([], [], [], []))
    else
      match FeedOf(records[..|records| - 1])
      case Failure(c) => Failure(c)
      case Success(f) => Step(f, records[|records| - 1], |records|)
  }

  /** Once a record raises, the command stops: longer inputs fail on the same record. */
  lemma {:induction false} CrashStops(records: seq<Record>, n: nat)
    requires n <= |records| && FeedOf(records[..n]).Failure?
    ensures FeedOf(records) == FeedOf(records[..n])
    decreases |records| - n
  {
    if n < |records| {
      var pre := records[..|records| - 1];
      assert pre[..n] == records[..n];
      CrashStops(pre, n);
    } else {
      assert records[..n] == records;
    }
  }

  /** `for error in product.errors: errors.append({...})`. */
  method Report(errors: seq<FeedError>, p: ParsedProduct, index: nat) returns (out: seq<FeedError>)
    ensures out == errors + ErrorsFor(p, index)
  {
    out := errors;
    var k := 0;
    while k < |p.errors|
      invariant 0 <= k <= |p.errors|
      invariant |out| == |errors| + k && out[..|errors|] == errors
      invariant forall j :: 0 <= j < k ==> out[|errors| + j] == FeedError(p.sourceId, index, p.errors[j])
    {
      out := out + [FeedError(p.sourceId, index, p.errors[k])];
      k := k + 1;
    }
    assert out == errors + ErrorsFor(p, index) by {
      forall j | 0 <= j < |out| ensures out[j] == (errors + ErrorsFor(p, index))[j] {
        if j < |errors| { assert out[j] == out[..|errors|][j]; }
      }
    }
  }

  /** The loop's state after one more record is the step from its state before. */
  lemma FeedOfNext(records: seq<Record>, i: nat)
    requires i < |records|
    ensures FeedOf(records[..i + 1]) ==
              match FeedOf(records[..i])
              case Failure(c) => Failure(c)
              case Success(f) => Step(f, records[i], i + 1)
  {
    assert records[..i + 1][..i] == records[..i];
  }

  /**
   * One pass of `handle`'s loop body: parse the record with the current counter, advance
   * the counter when the barcode starts with the fallback prefix, add the names to the
   * two dicts, keep the product and report its issues.
   */
  method HandleRecord(categories: seq<Group>, dosageForms: seq<Group>, products: seq<ParsedProduct>,
                      errors: seq<FeedError>, counter: nat, raw: Record, index: nat)
    returns (r: Result<Feed, Crash>, next: nat)
    requires counter == Counter(products)
    ensures r == Step(Feed(categories, dosageForms, products, errors), raw, index)
    ensures r.Success? ==> next == Counter(r.value.products)
  {
    next := counter;
    var product := ParseSingleProduct(raw, counter);
    if product.None? {
      return Failure(Crash(index)), next;
    }
    var p := product.value;
    if IsFallback(p.barcode) {
      next := counter + 1;
    }
    if !p.categoryName.Str? || !p.dosageFormName.Str? {
      return Failure(Crash(index)), next;
    }
    var errors' := Report(errors, p, index);
    CounterAppend(products, p);
    StepOf(Feed(categories, dosageForms, products, errors), raw, index, p);
    r := Success(Feed(AddTo(categories, p.categoryName.s, p.sourceId),
                      AddTo(dosageForms, p.dosageFormName.s, p.sourceId),
                      products + [p], errors'));
  }

  /**
   * `handle`'s loop over `payload['data']`, one HandleRecord per record in order, with
   * the counter starting at 1; the first record that raises stops the command.
   */
  method Handle(records: seq<Record>) returns (r: Result<Feed, Crash>)
    ensures r == FeedOf(records)
  {
    var counter: nat := 1;
    var categories: seq<Group> := [];
    var dosageForms: seq<Group> := [];
    var products: seq<ParsedProduct> := [];
    var errors: seq<FeedError> := [];
    var i := 0;
    while i < |records|
      invariant 0 <= i <= |records|
      invariant FeedOf(records[..i]) == Success(Feed(categories, dosageForms, products, errors))
      invariant counter == Counter(products)
    {
      FeedOfNext(records, i);
      var step, next := HandleRecord(categories, dosageForms, products, errors, counter, records[i], i + 1);
      if step.Failure? {
        CrashStops(records, i + 1);
        return step;
      }
      categories, dosageForms, products, errors := step.value.categories, step.value.dosageForms,
                                                  step.value.products, step.value.errors;
      counter := next;
      i := i + 1;
    }
    FullPrefix(records);
    r := Success(Feed(categories, dosageForms, products, errors));
  }

  // ---------------------------------------------------------------------------------
  // What the loop computes
  // ---------------------------------------------------------------------------------

  /** The text of a name (names that reach the dicts are text). */
  function TextOf(v: Json): string
  {
    if v.Str? then v.s else ""
  }

  /** The category names of a run of products, with their source ids. */
  function CategoryEntries(ps: seq<ParsedProduct>): seq<Entry>
    decreases |ps|
  {
    if ps == [] then []
    else CategoryEntries(ps[..|ps| - 1]) + [Entry(TextOf(ps[|ps| - 1].categoryName), ps[|ps| - 1].sourceId)]
  }

  /** The dosage-form names of a run of products, with their source ids. */
  function DosageFormEntries(ps: seq<ParsedProduct>): seq<Entry>
    decreases |ps|
  {
    if ps == [] then []
    else DosageFormEntries(ps[..|ps| - 1]) + [Entry(TextOf(ps[|ps| - 1].dosageFormName), ps[|ps| - 1].sourceId)]
  }

  /** The error lines of a run of products, each product numbered by its 1-based position. */
  function ErrorsOf(ps: seq<ParsedProduct>): seq<FeedError>
    decreases |ps|
  {
    if ps == [] then [] else ErrorsOf(ps[..|ps| - 1]) + ErrorsFor(ps[|ps| - 1], |ps|)
  }

  /** Record i yields product i, parsed with the counter its predecessors leave, and its names are text. */
  ghost predicate ParsedInOrder(records: seq<Record>, ps: seq<ParsedProduct>)
  {
    |ps| == |records| &&
    forall i :: 0 <= i < |records| ==>
      ParseSingleProduct(records[i], Counter(ps[..i])) == Some(ps[i]) &&
      ps[i].categoryName.Str? && ps[i].dosageFormName.Str?
  }

  /** What a successful pass of the loop body adds to what came before. */
  lemma StepSuccess(f: Feed, raw: Record, index: nat)
    requires Step(f, raw, index).Success?
    ensures ParseSingleProduct(raw, Counter(f.products)).Some?
    ensures var p := ParseSingleProduct(raw, Counter(f.products)).value;
            p.categoryName.Str? && p.dosageFormName.Str? &&
            Step(f, raw, index).value == Feed(
              AddTo(f.categories, p.categoryName.s, p.sourceId),
              AddTo(f.dosageForms, p.dosageFormName.s, p.sourceId),
              f.products + [p],
              f.errors + ErrorsFor(p, index))
  {
  }

  /** The products of the loop, stated without the loop. */
  lemma {:induction false} FeedProducts(records: seq<Record>, f: Feed)
    requires FeedOf(records) == Success(f)
    ensures ParsedInOrder(records, f.products)
    decreases |records|
  {
    if records != [] {
      var pre := records[..|records| - 1];
      var raw := records[|records| - 1];
      var f0 := FeedOf(pre).value;
      FeedProducts(pre, f0);
      StepSuccess(f0, raw, |records|);
      var p := ParseSingleProduct(raw, Counter(f0.products)).value;
      ParsedInOrderStep(pre, f0.products, raw, p);
      SplitLast(records);
    }
  }

  lemma ParsedInOrderStep(pre: seq<Record>, ps0: seq<ParsedProduct>, raw: Record, p: ParsedProduct)
    requires ParsedInOrder(pre, ps0)
    requires ParseSingleProduct(raw, Counter(ps0)) == Some(p)
    requires p.categoryName.Str? && p.dosageFormName.Str?
    ensures ParsedInOrder(pre + [raw], ps0 + [p])
  {
    var records := pre + [raw];
    var ps := ps0 + [p];
    forall i | 0 <= i < |records|
      ensures ParseSingleProduct(records[i], Counter(ps[..i])) == Some(ps[i])
      ensures ps[i].categoryName.Str? && ps[i].dosageFormName.Str?
    {
      if i < |pre| {
        assert ps[..i] == ps0[..i] && records[i] == pre[i] && ps[i] == ps0[i];
      } else {
        assert ps[..i] == ps0;
      }
    }
  }

  /**
   * The two dicts of the loop, stated without the loop: the grouping of the category
   * names, and of the dosage-form names, of all products (GroupingMeaning says what
   * such a grouping holds).
   */
  lemma {:induction false} FeedGroups(records: seq<Record>)
    ensures FeedOf(records).Success? ==>
              var f := FeedOf(records).value;
              f.categories == Grouping(CategoryEntries(f.products)) &&
              f.dosageForms == Grouping(DosageFormEntries(f.products))
    decreases |records|
  {
    if records != [] && FeedOf(records).Success? {
      var pre := records[..|records| - 1];
      FeedGroups(pre);
      var f0 := FeedOf(pre).value;
      StepSuccess(f0, records[|records| - 1], |records|);
      var p := ParseSingleProduct(records[|records| - 1], Counter(f0.products)).value;
      var ps := f0.products + [p];
      assert ps[..|ps| - 1] == f0.products;
      var ce := CategoryEntries(ps);
      assert ce[..|ce| - 1] == CategoryEntries(f0.products);
      var de := DosageFormEntries(ps);
      assert de[..|de| - 1] == DosageFormEntries(f0.products);
    }
  }

  /** The error lines of the loop, stated without the loop. */
  lemma {:induction false} FeedErrors(records: seq<Record>)
    ensures FeedOf(records).Success? ==>
              var f := FeedOf(records).value;
              |f.products| == |records| && f.errors == ErrorsOf(f.products)
    decreases |records|
  {
    if records != [] && FeedOf(records).Success? {
      var pre := records[..|records| - 1];
      FeedErrors(pre);
      var f0 := FeedOf(pre).value;
      StepSuccess(f0, records[|records| - 1], |records|);
      var p := ParseSingleProduct(records[|records| - 1], Counter(f0.products)).value;
      var ps := f0.products + [p];
      assert ps[..|ps| - 1] == f0.products;
    }
  }

  /** Every error line names a real record by its 1-based index, with that record's id and one of its issues. */
  lemma {:induction false} ErrorsIndexed(ps: seq<ParsedProduct>)
    ensures forall e :: e in ErrorsOf(ps) ==>
              1 <= e.index <= |ps| && e.sourceId == ps[e.index - 1].sourceId && e.issue in ps[e.index - 1].errors
    ensures |ErrorsOf(ps)| > 0 ==> ErrorsOf(ps)[|ErrorsOf(ps)| - 1].index <= |ps|
    decreases |ps|
  {
    if ps != [] {
      var pre := ps[..|ps| - 1];
      ErrorsIndexed(pre);
      forall e | e in ErrorsOf(ps)
        ensures 1 <= e.index <= |ps| && e.sourceId == ps[e.index - 1].sourceId && e.issue in ps[e.index - 1].errors
      {
        if e in ErrorsOf(pre) {
          assert ps[e.index - 1] == pre[e.index - 1];
        } else {
          assert e in ErrorsFor(ps[|ps| - 1], |ps|);
        }
      }
    }
  }

  /** The error lines come in record order. */
  lemma {:induction false} ErrorsInOrder(ps: seq<ParsedProduct>)
    ensures forall a, b :: 0 <= a < b < |ErrorsOf(ps)| ==> ErrorsOf(ps)[a].index <= ErrorsOf(ps)[b].index
    decreases |ps|
  {
    if ps != [] {
      var pre := ps[..|ps| - 1];
      ErrorsInOrder(pre);
      ErrorsIndexed(pre);
      var es := ErrorsOf(ps);
      var n := |ErrorsOf(pre)|;
      forall a, b | 0 <= a < b < |es| ensures es[a].index <= es[b].index {
        if b >= n {
          assert es[b] == ErrorsFor(ps[|ps| - 1], |ps|)[b - n];
          if a < n { assert es[a] == ErrorsOf(pre)[a]; assert es[a] in ErrorsOf(pre); }
        } else {
          assert es[a] == ErrorsOf(pre)[a] && es[b] == ErrorsOf(pre)[b];
        }
      }
    }
  }

  /** The counter never goes back. */
  lemma {:induction false} CounterGrows(ps: seq<ParsedProduct>, m: nat, n: nat)
    requires m <= n <= |ps|
    ensures Counter(ps[..m]) <= Counter(ps[..n])
    decreases n - m
  {
    if m < n {
      CounterGrows(ps, m, n - 1);
      assert ps[..n][..n - 1] == ps[..n - 1];
    }
  }

  /** A record whose product_code is missing or blank gets a generated barcode. */
  predicate NeedsFallback(raw: Record)
  {
    var v := Get(raw, "product_code");
    !(v.Str? && !AllSpace(v.s))
  }

  /** A record without a usable product_code gets the fallback numbered by the counter. */
  lemma FallbackBarcodeOf(raw: Record, counter: nat, p: ParsedProduct)
    requires ParseSingleProduct(raw, counter) == Some(p) && NeedsFallback(raw)
    ensures p.barcode == FallbackPrefix + NatToString(counter) && IsFallback(p.barcode)
  {
    ParseSingleProductIssues(raw, counter, p);
    FallbackNumber(counter);
  }

  /**
   * The barcodes the command generates are all different: every generated one advances
   * the counter, so a later one gets a larger number.
   */
  lemma FallbacksDistinct(ps: seq<ParsedProduct>, i: nat, j: nat, ri: Record, rj: Record)
    requires i < j < |ps|
    requires ParseSingleProduct(ri, Counter(ps[..i])) == Some(ps[i]) && NeedsFallback(ri)
    requires ParseSingleProduct(rj, Counter(ps[..j])) == Some(ps[j]) && NeedsFallback(rj)
    ensures ps[i].barcode != ps[j].barcode
  {
    var ci, cj := Counter(ps[..i]), Counter(ps[..j]);
    FallbackBarcodeOf(ri, ci, ps[i]);
    FallbackBarcodeOf(rj, cj, ps[j]);
    assert ps[..i + 1][..i] == ps[..i];
    CounterGrows(ps, i + 1, j);
    FallbacksDiffer(ci, cj);
  }

  /** The same for the products of the loop itself. */
  lemma FeedFallbacksDistinct(records: seq<Record>, f: Feed, i: nat, j: nat)
    requires FeedOf(records) == Success(f) && i < j < |records|
    requires NeedsFallback(records[i]) && NeedsFallback(records[j])
    ensures |f.products| == |records| && f.products[i].barcode != f.products[j].barcode
  {
    FeedProducts(records, f);
    FallbacksDistinct(f.products, i, j, records[i], records[j]);
  }
}
