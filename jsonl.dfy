/**
 * The barcode index and the batch-line writer of src/jsonl/mod.rs.
 *
 * `read_jsonl_to_map` folds the lines of the bulk export into a map from
 * barcode to variant id; `write_to_jsonln` appends one mutation-input line per
 * spreadsheet product whose barcode the map knows.
 */
module Jsonl {
  import opened Wrappers
  import opened Text

  /** One line of the bulk export as serde deserialises it into `Variant`. */
  datatype Variant = Variant(
    id: string,
    barcode: Option<string>,
    price: Option<string>,
    compareAtPrice: Option<string>,
    parentId: Option<string>)

  /**
   * One spreadsheet row. Prices are in hundredths (the source holds `f64` and
   * prints it with two decimals).
   */
  datatype Product = Product(barcode: string, rsp: int, offerRsp: int)

  /**
   * What iterating `BufReader::lines()` yields for one line of the export file:
   * a line whose read fails, a line that is not a `Variant`, or a variant.
   */
  datatype ExportLine = ReadFailed | Malformed | Record(variant: Variant)

  // ---------------------------------------------------------------------
  // The barcode index
  // ---------------------------------------------------------------------

  /** No line of the export fails to deserialise. */
  predicate AllParse(lines: seq<ExportLine>) {
    forall i :: 0 <= i < |lines| ==> !lines[i].Malformed?
  }

  /** The variants of the export, in file order. */
  function Records(lines: seq<ExportLine>): seq<Variant> {
    if lines == [] then []
    else
      Records(lines[..|lines| - 1])
      + match lines[|lines| - 1] case Record(v) => [v] case _ => []
  }

  /** Barcode to id, each variant with a barcode overwriting what came before. */
  function BarcodeIndex(vs: seq<Variant>): map<string, string> {
    if vs == [] then map[]
    else
      var index := BarcodeIndex(vs[..|vs| - 1]);
      var v := vs[|vs| - 1];
      if v.barcode.Some? then index[v.barcode.value := v.id] else index
  }

  /** Every barcode that some variant carries. */
  function Barcodes(vs: seq<Variant>): set<string> {
    set i | 0 <= i < |vs| && vs[i].barcode.Some? :: vs[i].barcode.value
  }

  /**
   * The index has a key for exactly the barcodes that occur: a variant
   * without a barcode adds nothing, whatever prices it has.
   */
  lemma {:induction false} IndexKeysAreBarcodes(vs: seq<Variant>)
    ensures BarcodeIndex(vs).Keys == Barcodes(vs)
  {
    if vs != [] {
      var init := vs[..|vs| - 1];
      var v := vs[|vs| - 1];
      IndexKeysAreBarcodes(init);
      assert Barcodes(vs) == Barcodes(init) + (if v.barcode.Some? then {v.barcode.value} else {}) by {
        forall b | b in Barcodes(vs) ensures b in Barcodes(init) || (v.barcode == Some(b)) {
          var i :| 0 <= i < |vs| && vs[i].barcode == Some(b);
          if i < |vs| - 1 {
            assert init[i] == vs[i];
          }
        }
        forall b | b in Barcodes(init) ensures b in Barcodes(vs) {
          var i :| 0 <= i < |init| && init[i].barcode == Some(b);
          assert vs[i] == init[i];
        }
      }
    }
  }

  /** For a barcode, the index holds the id of the last variant carrying it. */
  lemma {:induction false} LastVariantWins(vs: seq<Variant>, i: nat)
    requires i < |vs| && vs[i].barcode.Some?
    requires forall j :: i < j < |vs| ==> vs[j].barcode != vs[i].barcode
    ensures vs[i].barcode.value in BarcodeIndex(vs)
    ensures BarcodeIndex(vs)[vs[i].barcode.value] == vs[i].id
  {
    if i < |vs| - 1 {
      var init := vs[..|vs| - 1];
      assert init[i] == vs[i];
      LastVariantWins(init, i);
    }
  }

  /**
   * Folding two runs of variants one after the other: on a shared barcode the
   * later run overwrites the earlier (`HashMap::insert`).
   */
  lemma {:induction false} IndexOfConcat(a: seq<Variant>, b: seq<Variant>)
    ensures BarcodeIndex(a + b) == BarcodeIndex(a) + BarcodeIndex(b)
  {
    if b != [] {
      var init, v := b[..|b| - 1], b[|b| - 1];
      var ab := a + b;
      assert ab[..|ab| - 1] == a + init;
      assert ab[|ab| - 1] == v;
      IndexOfConcat(a, init);
      assert BarcodeIndex(ab) == if v.barcode.Some? then BarcodeIndex(a + init)[v.barcode.value := v.id] else BarcodeIndex(a + init);
      assert BarcodeIndex(b) == if v.barcode.Some? then BarcodeIndex(init)[v.barcode.value := v.id] else BarcodeIndex(init);
    } else {
      assert a + b == a;
    }
  }

  lemma RecordsSnoc(lines: seq<ExportLine>, line: ExportLine)
    ensures Records(lines + [line])
      == Records(lines) + match line case Record(v) => [v] case _ => []
  {
    assert (lines + [line])[..|lines|] == lines;
  }

  lemma IndexSnoc(vs: seq<Variant>, v: Variant)
    ensures BarcodeIndex(vs + [v])
      == if v.barcode.Some? then BarcodeIndex(vs)[v.barcode.value := v.id] else BarcodeIndex(vs)
  {
    assert (vs + [v])[..|vs|] == vs;
  }

  /** What one line of the export does to the index being built. */
  function IndexLine(index: map<string, string>, line: ExportLine): map<string, string> {
    match line
    case Record(v) => if v.barcode.Some? then index[v.barcode.value := v.id] else index
    case _ => index
  }

  /** One more line read: the index of the longer prefix is the old one after that line. */
  lemma IndexStep(lines: seq<ExportLine>, i: nat)
    requires i < |lines|
    requires AllParse(lines[..i]) && !lines[i].Malformed?
    ensures AllParse(lines[..i + 1])
    ensures BarcodeIndex(Records(lines[..i + 1])) == IndexLine(BarcodeIndex(Records(lines[..i])), lines[i])
  {
    assert lines[..i + 1] == lines[..i] + [lines[i]];
    RecordsSnoc(lines[..i], lines[i]);
    match lines[i] {
      case ReadFailed =>
        assert Records(lines[..i + 1]) == Records(lines[..i]);
      case Record(data) =>
        assert Records(lines[..i + 1]) == Records(lines[..i]) + [data];
        IndexSnoc(Records(lines[..i]), data);
    }
  }

  /**
   * `read_jsonl_to_map`: `exportFile` is `None` when the file cannot be opened,
   * in which case the map is empty. Lines whose read fails are skipped; a line
   * that is not a `Variant` panics (`serde_json::from_str(..).unwrap()`).
   */
  method ReadJsonlToMap(exportFile: Option<seq<ExportLine>>) returns (r: Outcome<map<string, string>>)
    ensures exportFile.None? ==> r == Ok(map[])
    ensures exportFile.Some? && !AllParse(exportFile.value) ==> r == Panic
    ensures exportFile.Some? && AllParse(exportFile.value) ==> r == Ok(BarcodeIndex(Records(exportFile.value)))
  {
    var index: map<string, string> := map[];
    if exportFile.Some? {
      var lines := exportFile.value;
      var i := 0;
      while i < |lines|
        invariant 0 <= i <= |lines|
        invariant AllParse(lines[..i])
        invariant index == BarcodeIndex(Records(lines[..i]))
      {
        if lines[i].Malformed? {
          return Panic;
        }
        IndexStep(lines, i);
        match lines[i] {
          case ReadFailed =>
          case Record(data) =>
            if data.barcode.None? && data.price.None? && data.compareAtPrice.None? {
            } else if data.barcode.Some? {
              index := index[data.barcode.value := data.id];
            }
        }
        i := i + 1;
      }
      assert lines[..i] == lines;
    }
    r := Ok(index);
  }

  // ---------------------------------------------------------------------
  // Escaping the id
  // ---------------------------------------------------------------------

  function CountChar(s: string, c: char): nat {
    if s == [] then 0 else (if s[0] == c then 1 else 0) + CountChar(s[1..], c)
  }

  /**
   * `id.replace("/", "\\/")`. Every `/` of the result is preceded by a
   * backslash that the escape put there.
   */
  function EscapeSlashes(s: string): (r: string)
    ensures forall i :: 0 <= i < |r| && r[i] == '/' ==> i > 0 && r[i - 1] == '\\'
  {
    if s == [] then []
    else (if s[0] == '/' then "\\/" else [s[0]]) + EscapeSlashes(s[1..])
  }

  /** The reading side of the escape: every `\/` becomes `/`. */
  function UnescapeSlashes(s: string): string {
    if s == [] then []
    else if |s| >= 2 && s[0] == '\\' && s[1] == '/' then "/" + UnescapeSlashes(s[2..])
    else [s[0]] + UnescapeSlashes(s[1..])
  }

  /** The escape lengthens the id by one character per `/`. */
  lemma {:induction false} EscapeLength(s: string)
    ensures |EscapeSlashes(s)| == |s| + CountChar(s, '/')
  {
    if s != [] {
      EscapeLength(s[1..]);
    }
  }

  /** Only `/` is rewritten: any other character is in the escaped id iff it is in the id. */
  lemma {:induction false} EscapeKeeps(s: string, c: char)
    requires c != '/' && c != '\\'
    ensures c in EscapeSlashes(s) <==> c in s
  {
    if s != [] {
      EscapeKeeps(s[1..], c);
      var head: string := if s[0] == '/' then "\\/" else [s[0]];
      assert EscapeSlashes(s) == head + EscapeSlashes(s[1..]);
      assert s == [s[0]] + s[1..];
    }
  }

  /** Unescaping gives back the original id, for every id. */
  lemma {:induction false} UnescapeEscape(s: string)
    ensures UnescapeSlashes(EscapeSlashes(s)) == s
  {
    if s != [] {
      var tail := EscapeSlashes(s[1..]);
      UnescapeEscape(s[1..]);
      if s[0] == '/' {
        assert EscapeSlashes(s) == "\\/" + tail;
        assert EscapeSlashes(s)[2..] == tail;
      } else {
        assert EscapeSlashes(s) == [s[0]] + tail;
        assert EscapeSlashes(s)[1..] == tail;
        assert |tail| > 0 ==> tail[0] != '/';
      }
    }
  }

  // ---------------------------------------------------------------------
  // Two-decimal formatting of a price held in hundredths
  // ---------------------------------------------------------------------

  predicate NumberChar(c: char) {
    c == '-' || c == '.' || IsDigit(c)
  }

  /** The unsigned part of a printed price: whole part, `.`, two digits. */
  function Fmt2Unsigned(a: nat): (r: string)
    ensures |r| >= 4 && IsDigit(r[0])
    ensures forall i :: 0 <= i < |r| ==> NumberChar(r[i])
  {
    NatToDecimal(a / 100) + "." + [DigitChar(a / 10 % 10), DigitChar(a % 10)]
  }

  /** A price printed with two decimals: optional `-`, whole part, `.`, two digits. */
  function Fmt2(cents: int): (r: string)
    ensures forall i :: 0 <= i < |r| ==> NumberChar(r[i])
  {
    if cents < 0 then "-" + Fmt2Unsigned(-cents) else Fmt2Unsigned(cents)
  }

  /** Reads an unsigned printed price back into hundredths. */
  function ParseUnsigned(body: string): Option<nat> {
    if |body| < 4 || body[|body| - 3] != '.' then None
    else
      var whole := body[..|body| - 3];
      var d1 := body[|body| - 2];
      var d2 := body[|body| - 1];
      if !(AllDigits(whole) && IsDigit(d1) && IsDigit(d2)) then None
      else Some(DecimalValue(whole) * 100 + DigitValue(d1) * 10 + DigitValue(d2))
  }

  /** Reads a price printed by `Fmt2` back into hundredths. */
  function ParseFmt2(s: string): Option<int> {
    var neg := |s| > 0 && s[0] == '-';
    match ParseUnsigned(if neg then s[1..] else s)
    case None => None
    case Some(v) =>
      var x: int := v;
      Some(if neg then -x else x)
  }

  lemma UnsignedRoundTrip(a: nat)
    ensures ParseUnsigned(Fmt2Unsigned(a)) == Some(a)
  {
    var whole := NatToDecimal(a / 100);
    var body := Fmt2Unsigned(a);
    assert body[..|body| - 3] == whole;
    DecimalRoundTrip(a / 100);
    assert a / 10 == a / 100 * 10 + a / 10 % 10;
    assert a == a / 10 * 10 + a % 10;
  }

  lemma Fmt2RoundTrip(cents: int)
    ensures ParseFmt2(Fmt2(cents)) == Some(cents)
  {
    if cents < 0 {
      UnsignedRoundTrip(-cents);
      assert ("-" + Fmt2Unsigned(-cents))[1..] == Fmt2Unsigned(-cents);
    } else {
      UnsignedRoundTrip(cents);
    }
  }

  // ---------------------------------------------------------------------
  // Batch lines
  // ---------------------------------------------------------------------

  const LinePrefix: string := "{\"input\":{\"id\":\""
  const PriceKey: string := "\",\"price\":"
  const CompareKey: string := ",\"compareAtPrice\":"
  const LineEnd: string := "}}\n"

  /** The mutation input one batch line carries. */
  datatype BatchInput = BatchInput(id: string, price: int, compareAtPrice: int)

  /** The line written for one matched product (the `format!` of write_to_jsonln). */
  function BatchLine(id: string, price: int, compareAtPrice: int): (r: string)
    ensures LinePrefix <= r
    ensures |r| > 0 && r[|r| - 1] == '\n'
  {
    LinePrefix + (EscapeSlashes(id) + (PriceKey + (Fmt2(price) + (CompareKey + (Fmt2(compareAtPrice) + LineEnd)))))
  }

  /** `s` ends in its only newline. */
  predicate EndsOnlyNewline(s: string) {
    |s| > 0 && '\n' !in s[..|s| - 1]
  }

  lemma PrependNoNewline(a: string, t: string)
    requires '\n' !in a && EndsOnlyNewline(t)
    ensures EndsOnlyNewline(a + t)
  {
    assert (a + t)[..|a + t| - 1] == a + t[..|t| - 1];
  }

  lemma NoNewlineInPrice(p: int)
    ensures '\n' !in Fmt2(p)
  {
    var f := Fmt2(p);
    forall i | 0 <= i < |f| ensures f[i] != '\n' {
      assert NumberChar(f[i]);
    }
  }

  /**
   * The only newline of a line is its last character when the id holds none;
   * the escape leaves a newline in the id as it is, splitting the input.
   */
  lemma OneLinePerInput(id: string, price: int, compareAtPrice: int)
    requires '\n' !in id
    ensures EndsOnlyNewline(BatchLine(id, price, compareAtPrice))
  {
    var f1, f2 := Fmt2(price), Fmt2(compareAtPrice);
    assert LineEnd[..|LineEnd| - 1] == "}}";
    NoNewlineInPrice(compareAtPrice);
    PrependNoNewline(f2, LineEnd);
    PrependNoNewline(CompareKey, f2 + LineEnd);
    NoNewlineInPrice(price);
    PrependNoNewline(f1, CompareKey + (f2 + LineEnd));
    PrependNoNewline(PriceKey, f1 + (CompareKey + (f2 + LineEnd)));
    EscapeKeeps(id, '\n');
    PrependNoNewline(EscapeSlashes(id), PriceKey + (f1 + (CompareKey + (f2 + LineEnd))));
    PrependNoNewline(LinePrefix, EscapeSlashes(id) + (PriceKey + (f1 + (CompareKey + (f2 + LineEnd)))));
  }

  /**
   * Reads a batch line back: the id up to the first `"`, unescaped, and the
   * two prices.
   */
  function ParseBatchLine(line: string): Option<BatchInput> {
    if LinePrefix <= line then ParseIdField(line[|LinePrefix|..]) else None
  }

  function ParseIdField(s: string): Option<BatchInput> {
    match IndexOf(s, "\"")
    case None => None
    case Some(q) =>
      match ParsePriceField(s[q..])
      case None => None
      case Some(prices) => Some(BatchInput(UnescapeSlashes(s[..q]), prices.0, prices.1))
  }

  function ParsePriceField(s: string): Option<(int, int)> {
    if !(PriceKey <= s) then None
    else
      var t := s[|PriceKey|..];
      match IndexOf(t, ",")
      case None => None
      case Some(c) =>
        match (ParseFmt2(t[..c]), ParseCompareField(t[c..]))
        case (Some(p), Some(cp)) => Some((p, cp))
        case _ => None
  }

  function ParseCompareField(s: string): Option<int> {
    if !(CompareKey <= s) then None
    else
      var t := s[|CompareKey|..];
      if |t| < |LineEnd| || t[|t| - |LineEnd|..] != LineEnd then None
      else ParseFmt2(t[..|t| - |LineEnd|])
  }

  /** The first occurrence of a one-character pattern in `a + [c] + b`, when `c` is not in `a`. */
  lemma IndexOfChar(a: string, c: char, b: string)
    requires c !in a
    ensures IndexOf(a + [c] + b, [c]) == Some(|a|)
  {
    var s := a + [c] + b;
    assert s[|a|..|a| + 1] == [c];
    forall j | 0 <= j < |a| ensures !OccursAt(s, [c], j) {
      assert s[j..j + 1] == [a[j]];
    }
    IndexOfIs(s, [c], |a|);
  }

  lemma CompareFieldRoundTrip(cp: int)
    ensures ParseCompareField(CompareKey + (Fmt2(cp) + LineEnd)) == Some(cp)
  {
    var f := Fmt2(cp);
    var s := CompareKey + (f + LineEnd);
    assert s[|CompareKey|..] == f + LineEnd;
    assert (f + LineEnd)[|f|..] == LineEnd;
    assert (f + LineEnd)[..|f|] == f;
    Fmt2RoundTrip(cp);
  }

  lemma NoCommaInPrice(p: int)
    ensures ',' !in Fmt2(p)
  {
    var f := Fmt2(p);
    forall i | 0 <= i < |f| ensures f[i] != ',' {
      assert NumberChar(f[i]);
    }
  }

  lemma PriceFieldOf(f: string, rest: string, p: int, cp: int)
    requires ',' !in f && ParseFmt2(f) == Some(p)
    requires |rest| > 0 && rest[0] == ',' && ParseCompareField(rest) == Some(cp)
    ensures ParsePriceField(PriceKey + (f + rest)) == Some((p, cp))
  {
    var s := PriceKey + (f + rest);
    var t := f + rest;
    assert s[|PriceKey|..] == t;
    assert t == f + [','] + rest[1..];
    IndexOfChar(f, ',', rest[1..]);
    assert t[..|f|] == f;
    assert t[|f|..] == rest;
  }

  lemma PriceFieldRoundTrip(p: int, cp: int)
    ensures ParsePriceField(PriceKey + (Fmt2(p) + (CompareKey + (Fmt2(cp) + LineEnd)))) == Some((p, cp))
  {
    var rest := CompareKey + (Fmt2(cp) + LineEnd);
    NoCommaInPrice(p);
    Fmt2RoundTrip(p);
    CompareFieldRoundTrip(cp);
    PriceFieldOf(Fmt2(p), rest, p, cp);
  }

  lemma IdFieldOf(e: string, rest: string, id: string, p: int, cp: int)
    requires '"' !in e && UnescapeSlashes(e) == id
    requires |rest| > 0 && rest[0] == '"' && ParsePriceField(rest) == Some((p, cp))
    ensures ParseIdField(e + rest) == Some(BatchInput(id, p, cp))
  {
    var s := e + rest;
    assert s == e + ['"'] + rest[1..];
    IndexOfChar(e, '"', rest[1..]);
    assert s[..|e|] == e;
    assert s[|e|..] == rest;
  }

  lemma IdFieldRoundTrip(id: string, p: int, cp: int)
    requires '"' !in id
    ensures ParseIdField(EscapeSlashes(id) + (PriceKey + (Fmt2(p) + (CompareKey + (Fmt2(cp) + LineEnd)))))
      == Some(BatchInput(id, p, cp))
  {
    var rest := PriceKey + (Fmt2(p) + (CompareKey + (Fmt2(cp) + LineEnd)));
    EscapeKeeps(id, '"');
    UnescapeEscape(id);
    PriceFieldRoundTrip(p, cp);
    IdFieldOf(EscapeSlashes(id), rest, id, p, cp);
  }

  /**
   * A batch line reads back as the id, the offer price in `price` and the
   * regular price in `compareAtPrice`, for any id without a double quote.
   */
  lemma BatchLineRoundTrip(id: string, price: int, compareAtPrice: int)
    requires '"' !in id
    ensures ParseBatchLine(BatchLine(id, price, compareAtPrice)) == Some(BatchInput(id, price, compareAtPrice))
  {
    var rest := EscapeSlashes(id) + (PriceKey + (Fmt2(price) + (CompareKey + (Fmt2(compareAtPrice) + LineEnd))));
    assert (LinePrefix + rest)[|LinePrefix|..] == rest;
    IdFieldRoundTrip(id, price, compareAtPrice);
  }

  lemma ExampleIdEscaped()
    ensures EscapeSlashes("gid://1") == "gid:\\/\\/1"
  {
  }

  lemma ExamplePricesPrinted()
    ensures Fmt2(999) == "9.99" && Fmt2(1050) == "10.50"
  {
    assert NatToDecimal(9) == "9";
    assert NatToDecimal(10) == "10";
  }

  /**
   * Offer price 9.99 and regular price 10.50 for a variant whose id is
   * `gid://1`, field by field: the slashes of the id come out escaped.
   */
  lemma OfferLineExample()
    ensures BatchLine("gid://1", 999, 1050)
      == "{\"input\":{\"id\":\"" + ("gid:\\/\\/1" + ("\",\"price\":" + ("9.99"
         + (",\"compareAtPrice\":" + ("10.50" + "}}\n")))))
  {
    ExampleIdEscaped();
    ExamplePricesPrinted();
  }

  /**
   * The lines written for `products`, in product order, skipping every
   * product whose barcode the index lacks.
   */
  function BatchLines(products: seq<Product>, index: map<string, string>): (r: seq<string>)
    ensures |r| <= |products|
  {
    if products == [] then []
    else
      var p := products[|products| - 1];
      var init := BatchLines(products[..|products| - 1], index);
      if p.barcode in index then init + [BatchLine(index[p.barcode], p.offerRsp, p.rsp)] else init
  }

  /**
   * Reference definition: the inputs of the matched products, taken from the
   * front: the offer price is the new `price`, the regular one `compareAtPrice`.
   */
  function MatchedInputs(products: seq<Product>, index: map<string, string>): seq<BatchInput> {
    if products == [] then []
    else
      var p := products[0];
      (if p.barcode in index then [BatchInput(index[p.barcode], p.offerRsp, p.rsp)] else [])
      + MatchedInputs(products[1..], index)
  }

  /** Writing two runs of products appends their lines one after the other. */
  lemma {:induction false} BatchLinesConcat(a: seq<Product>, b: seq<Product>, index: map<string, string>)
    ensures BatchLines(a + b, index) == BatchLines(a, index) + BatchLines(b, index)
  {
    if b != [] {
      var init, p := b[..|b| - 1], b[|b| - 1];
      var ab := a + b;
      assert ab[..|ab| - 1] == a + init;
      assert ab[|ab| - 1] == p;
      BatchLinesConcat(a, init, index);
      var last := if p.barcode in index then [BatchLine(index[p.barcode], p.offerRsp, p.rsp)] else [];
      assert BatchLines(ab, index) == BatchLines(a + init, index) + last;
      assert BatchLines(b, index) == BatchLines(init, index) + last;
    } else {
      assert a + b == a;
    }
  }

  /** The lines of a one-product run. */
  lemma BatchLinesOne(p: Product, index: map<string, string>)
    ensures BatchLines([p], index)
      == if p.barcode in index then [BatchLine(index[p.barcode], p.offerRsp, p.rsp)] else []
  {
    assert [p][..0] == [];
  }

  /** Line `k` is the line written for input `k`, for every `k`. */
  predicate LinesFor(lines: seq<string>, inputs: seq<BatchInput>) {
    |lines| == |inputs|
    && forall k :: 0 <= k < |lines| ==>
      lines[k] == BatchLine(inputs[k].id, inputs[k].price, inputs[k].compareAtPrice)
  }

  lemma LinesForConcat(l1: seq<string>, i1: seq<BatchInput>, l2: seq<string>, i2: seq<BatchInput>)
    requires LinesFor(l1, i1) && LinesFor(l2, i2)
    ensures LinesFor(l1 + l2, i1 + i2)
  {
    forall k | 0 <= k < |l1 + l2|
      ensures (l1 + l2)[k] == BatchLine((i1 + i2)[k].id, (i1 + i2)[k].price, (i1 + i2)[k].compareAtPrice)
    {
      if k >= |l1| {
        assert (l1 + l2)[k] == l2[k - |l1|] && (i1 + i2)[k] == i2[k - |l1|];
      }
    }
  }

  /**
   * One line per matched product and none for the others, in product order:
   * line `k` is the line for the `k`-th matched product, whatever its id holds.
   */
  lemma {:induction false} BatchLinesMatched(products: seq<Product>, index: map<string, string>)
    ensures LinesFor(BatchLines(products, index), MatchedInputs(products, index))
  {
    if products != [] {
      var p, rest := products[0], products[1..];
      var head := if p.barcode in index then [BatchInput(index[p.barcode], p.offerRsp, p.rsp)] else [];
      assert MatchedInputs(products, index) == head + MatchedInputs(rest, index);
      BatchLinesMatched(rest, index);
      assert products == [p] + rest;
      BatchLinesConcat([p], rest, index);
      BatchLinesOne(p, index);
      assert LinesFor(BatchLines([p], index), head);
      LinesForConcat(BatchLines([p], index), head, BatchLines(rest, index), MatchedInputs(rest, index));
    }
  }

  /** Every line written is a complete input line: the prefix, then a closing newline. */
  lemma BatchLinesTerminated(products: seq<Product>, index: map<string, string>)
    ensures forall k :: 0 <= k < |BatchLines(products, index)| ==>
      LinePrefix <= BatchLines(products, index)[k]
      && BatchLines(products, index)[k][|BatchLines(products, index)[k]| - 1] == '\n'
  {
    BatchLinesMatched(products, index);
  }

  /** No id in the index contains a double quote. */
  predicate QuoteFreeIds(index: map<string, string>) {
    forall b :: b in index ==> '"' !in index[b]
  }

  /** Line `k` reads back as input `k`, for every `k`. */
  predicate DecodesTo(lines: seq<string>, inputs: seq<BatchInput>) {
    |lines| == |inputs| && forall k :: 0 <= k < |lines| ==> ParseBatchLine(lines[k]) == Some(inputs[k])
  }

  lemma DecodesConcat(l1: seq<string>, i1: seq<BatchInput>, l2: seq<string>, i2: seq<BatchInput>)
    requires DecodesTo(l1, i1) && DecodesTo(l2, i2)
    ensures DecodesTo(l1 + l2, i1 + i2)
  {
    forall k | 0 <= k < |l1 + l2| ensures ParseBatchLine((l1 + l2)[k]) == Some((i1 + i2)[k]) {
      if k >= |l1| {
        assert (l1 + l2)[k] == l2[k - |l1|];
        assert (i1 + i2)[k] == i2[k - |l1|];
      }
    }
  }

  /** The line of one product, if it matches, reads back as its input. */
  lemma DecodesOne(p: Product, index: map<string, string>)
    requires QuoteFreeIds(index)
    ensures DecodesTo(BatchLines([p], index),
      if p.barcode in index then [BatchInput(index[p.barcode], p.offerRsp, p.rsp)] else [])
  {
    BatchLinesOne(p, index);
    if p.barcode in index {
      BatchLineRoundTrip(index[p.barcode], p.offerRsp, p.rsp);
    }
  }

  /**
   * One line per matched product and none for the others, in product order,
   * each reading back as that product's id, offer price and regular price.
   */
  lemma {:induction false} BatchLinesDecode(products: seq<Product>, index: map<string, string>)
    requires QuoteFreeIds(index)
    ensures |BatchLines(products, index)| == |MatchedInputs(products, index)|
    ensures forall k :: 0 <= k < |BatchLines(products, index)| ==>
      ParseBatchLine(BatchLines(products, index)[k]) == Some(MatchedInputs(products, index)[k])
  {
    if products != [] {
      var p, rest := products[0], products[1..];
      BatchLinesDecode(rest, index);
      assert products == [p] + rest;
      BatchLinesConcat([p], rest, index);
      DecodesOne(p, index);
      DecodesConcat(BatchLines([p], index), if p.barcode in index then [BatchInput(index[p.barcode], p.offerRsp, p.rsp)] else [],
        BatchLines(rest, index), MatchedInputs(rest, index));
    }
  }

  /**
   * The batch file `tmp/upload.jsonl`, opened in append mode: `lines` holds
   * what each `write` call put there, oldest first.
   */
  class BatchFile {
    var lines: seq<string>

    /** `File::create` in main.rs: the run starts from an empty batch file. */
    constructor Create()
      ensures lines == []
    {
      lines := [];
    }

    /**
     * `write_to_jsonln`: the earlier contents stay an unchanged prefix and the
     * lines for the matched products follow in product order.
     */
    method WriteToJsonl(products: seq<Product>, index: map<string, string>)
      modifies this
      ensures lines == old(lines) + BatchLines(products, index)
    {
      for i := 0 to |products|
        invariant lines == old(lines) + BatchLines(products[..i], index)
      {
        assert products[..i + 1][..i] == products[..i];
        var product := products[i];
        if product.barcode !in index {
          continue;
        }
        lines := lines + [BatchLine(index[product.barcode], product.offerRsp, product.rsp)];
      }
      assert products[..|products|] == products;
    }
  }
}
