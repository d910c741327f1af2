/**
 * The body of the session-creation call the checkout route makes to Stripe
 * (app/api/checkout/route.ts lines 141-215): the nested `checkoutSessionData`
 * object is flattened into Stripe's bracketed form keys
 * (`line_items[0][price_data][currency]`) by a `reduce` that writes into an
 * accumulator record, and `URLSearchParams` then serializes the record as
 * application/x-www-form-urlencoded.
 *
 * `Fields` lists, in order, the key paths and values the flattening must
 * produce; `BuildFormRecord` is the `reduce` itself, proved to produce
 * exactly that list with every key written once.
 */
module FormBody {
  import opened Wrappers
  import opened Text
  import opened Percent

  /** One entry of `line_items`: `{ price_data: { currency, product_data: { name, description }, unit_amount }, quantity }` */
  datatype LineItem = LineItem(currency: string, name: string, description: string, unitAmount: nat, quantity: nat)

  /** `checkoutSessionData` (route.ts lines 141-157) */
  datatype SessionData = SessionData(
    paymentMethodTypes: seq<string>,
    lineItems: seq<LineItem>,
    mode: string,
    currency: string,
    successUrl: string,
    cancelUrl: string,
    metadataItems: string,
    metadataUserId: string,
    boletoExpiresAfterDays: nat)

  // ---------------------------------------------------------------------------
  // Bracketed keys
  // ---------------------------------------------------------------------------

  /** A form key `root[path0][path1]...` */
  datatype FieldKey = FieldKey(root: string, path: seq<string>)

  type Field = (FieldKey, string)

  /** The accumulator record: a JavaScript object keeps its string keys in insertion order. */
  type FormRecord = seq<(string, string)>

  /** `[${s}]` */
  function Seg(s: string): string {
    "[" + s + "]"
  }

  function Brackets(path: seq<string>): string {
    if path == [] then "" else Seg(path[0]) + Brackets(path[1..])
  }

  function RenderKey(k: FieldKey): string {
    k.root + Brackets(k.path)
  }

  lemma BracketsCons(a: string, rest: seq<string>)
    ensures Brackets([a] + rest) == Seg(a) + Brackets(rest)
  {
    assert ([a] + rest)[1..] == rest;
  }

  lemma BracketsOfDisplays(a: string, b: string, c: string, e: string)
    ensures Brackets([a]) == Seg(a)
    ensures Brackets([a, b]) == Seg(a) + Seg(b)
    ensures Brackets([a, b, c]) == Seg(a) + Seg(b) + Seg(c)
    ensures Brackets([a, b, c, e]) == Seg(a) + Seg(b) + Seg(c) + Seg(e)
  {
    BracketsCons(e, []);
    BracketsCons(c, []);
    BracketsCons(b, []);
    BracketsCons(a, []);
    assert [e] == [e] + [];
    assert [c] == [c] + [];
    assert [b] == [b] + [];
    assert [a] == [a] + [];
    BracketsCons(c, [e]);
    BracketsCons(b, [c]);
    BracketsCons(a, [b]);
    BracketsCons(b, [c, e]);
    BracketsCons(a, [b, c]);
    BracketsCons(a, [b, c, e]);
    assert [c, e] == [c] + [e];
    assert [b, c] == [b] + [c];
    assert [a, b] == [a] + [b];
    assert [b, c, e] == [b] + [c, e];
    assert [a, b, c] == [a] + [b, c];
    assert [a, b, c, e] == [a] + [b, c, e];
  }

  lemma RenderKeyOfDisplays(root: string, a: string, b: string, c: string, e: string)
    ensures RenderKey(FieldKey(root, [])) == root
    ensures RenderKey(FieldKey(root, [a])) == root + Seg(a)
    ensures RenderKey(FieldKey(root, [a, b])) == root + Seg(a) + Seg(b)
    ensures RenderKey(FieldKey(root, [a, b, c])) == root + Seg(a) + Seg(b) + Seg(c)
    ensures RenderKey(FieldKey(root, [a, b, c, e])) == root + Seg(a) + Seg(b) + Seg(c) + Seg(e)
  {
    BracketsOfDisplays(a, b, c, e);
    assert root + "" == root;
  }

  predicate IsPlain(s: string) {
    '[' !in s && ']' !in s
  }

  predicate WellFormedKey(k: FieldKey) {
    IsPlain(k.root) && forall i :: 0 <= i < |k.path| ==> IsPlain(k.path[i])
  }

  /** Reads `[a][b]...` back into its segments. */
  function ParseBrackets(s: string): Option<seq<string>>
    decreases |s|
  {
    if s == [] then Some([])
    else if s[0] != '[' then None
    else
      var j := IndexOf(s[1..], ']');
      if j == |s| - 1 then None
      else match ParseBrackets(s[j + 2..])
        case None => None
        case Some(rest) => Some([s[1..j + 1]] + rest)
  }

  /** Reads a bracketed key back into its root and segments (how Stripe reads the body). */
  function ParseKey(s: string): Option<FieldKey> {
    var i := IndexOf(s, '[');
    match ParseBrackets(s[i..])
    case None => None
    case Some(path) => Some(FieldKey(s[..i], path))
  }

  /** One segment is read back, and the rest is read after it. */
  lemma ParseSeg(p: string, rest: string)
    requires IsPlain(p)
    ensures ParseBrackets(Seg(p) + rest)
            == match ParseBrackets(rest) case None => None case Some(r) => Some([p] + r)
  {
    var s := Seg(p) + rest;
    SegShape(p, rest);
    SegCloses(p, rest);
    ParseBracketsOpen(s, |p|);
  }

  /** Where the parts of `[p]rest` sit. */
  lemma SegShape(p: string, rest: string)
    ensures var s := Seg(p) + rest;
      && |s| == |p| + 2 + |rest| && s[0] == '['
      && s[|p| + 2..] == rest && s[1..|p| + 1] == p
  {
    var s := Seg(p) + rest;
    assert s == ['['] + (p + ([']'] + rest));
  }

  /** The first `]` of `[p]rest` is the one closing `p`. */
  lemma SegCloses(p: string, rest: string)
    requires IsPlain(p)
    ensures IndexOf((Seg(p) + rest)[1..], ']') == |p|
  {
    var s := Seg(p) + rest;
    assert s[1..] == p + ([']'] + rest);
    IndexOfAfter(p, ']', [']'] + rest);
    assert IndexOf([']'] + rest, ']') == 0;
  }

  /** The first segment of a bracketed string ends at the first `]`. */
  lemma ParseBracketsOpen(s: string, j: nat)
    requires s != [] && s[0] == '[' && j < |s| - 1 && IndexOf(s[1..], ']') == j
    ensures ParseBrackets(s)
            == match ParseBrackets(s[j + 2..]) case None => None case Some(r) => Some([s[1..j + 1]] + r)
  {
  }

  lemma {:induction false} ParseBracketsRoundTrip(path: seq<string>)
    requires forall i :: 0 <= i < |path| ==> IsPlain(path[i])
    ensures ParseBrackets(Brackets(path)) == Some(path)
  {
    if path != [] {
      ParseSeg(path[0], Brackets(path[1..]));
      ParseBracketsRoundTrip(path[1..]);
      assert [path[0]] + path[1..] == path;
    }
  }

  /** Parsing a rendered key gives the key back. */
  lemma ParseKeyRoundTrip(k: FieldKey)
    requires WellFormedKey(k)
    ensures ParseKey(RenderKey(k)) == Some(k)
  {
    var s := RenderKey(k);
    IndexOfAfter(k.root, '[', Brackets(k.path));
    assert IndexOf(Brackets(k.path), '[') == 0;
    assert s[|k.root|..] == Brackets(k.path);
    assert s[..|k.root|] == k.root;
    ParseBracketsRoundTrip(k.path);
  }

  /** Different well-formed keys render to different strings. */
  lemma RenderKeyInjective(a: FieldKey, b: FieldKey)
    requires WellFormedKey(a) && WellFormedKey(b) && a != b
    ensures RenderKey(a) != RenderKey(b)
  {
    ParseKeyRoundTrip(a);
    ParseKeyRoundTrip(b);
  }

  // ---------------------------------------------------------------------------
  // The record and its writes
  // ---------------------------------------------------------------------------

  /** `acc[key] = value`: an existing key keeps its place and takes the new value; a new key goes last. */
  function Put(r: FormRecord, key: string, value: string): (r': FormRecord)
    ensures |r'| == |r| || |r'| == |r| + 1
  {
    if r == [] then [(key, value)]
    else if r[0].0 == key then [(key, value)] + r[1..]
    else [r[0]] + Put(r[1..], key, value)
  }

  lemma {:induction false} PutAppends(r: FormRecord, key: string, value: string)
    requires forall i :: 0 <= i < |r| ==> r[i].0 != key
    ensures Put(r, key, value) == r + [(key, value)]
  {
    if r != [] {
      PutAppends(r[1..], key, value);
    }
  }

  function Render(fs: seq<Field>): (r: FormRecord)
    ensures |r| == |fs|
  {
    seq(|fs|, i requires 0 <= i < |fs| => (RenderKey(fs[i].0), fs[i].1))
  }

  predicate KeysWellFormed(fs: seq<Field>) {
    forall i :: 0 <= i < |fs| ==> WellFormedKey(fs[i].0)
  }

  predicate DistinctKeys(fs: seq<Field>) {
    forall i, j :: 0 <= i < j < |fs| ==> fs[i].0 != fs[j].0
  }

  predicate Fresh(fs: seq<Field>, k: FieldKey) {
    forall i :: 0 <= i < |fs| ==> fs[i].0 != k
  }

  /** Writing a field whose key is new appends it, and the keys stay distinct. */
  lemma PutField(fs: seq<Field>, f: Field)
    requires KeysWellFormed(fs) && WellFormedKey(f.0) && Fresh(fs, f.0)
    ensures Put(Render(fs), RenderKey(f.0), f.1) == Render(fs + [f])
    ensures DistinctKeys(fs) ==> DistinctKeys(fs + [f])
  {
    var r := Render(fs);
    forall i | 0 <= i < |r|
      ensures r[i].0 != RenderKey(f.0)
    {
      RenderKeyInjective(fs[i].0, f.0);
    }
    PutAppends(r, RenderKey(f.0), f.1);
    assert r + [(RenderKey(f.0), f.1)] == Render(fs + [f]);
  }

  // ---------------------------------------------------------------------------
  // The fields the flattening must produce
  // ---------------------------------------------------------------------------

  function TypeKey(i: nat): FieldKey {
    FieldKey("payment_method_types", [NatToString(i)])
  }

  /** The keys of line item `i` have the item's index as their first segment. */
  predicate IsItemKey(k: FieldKey, i: nat) {
    k.root == "line_items" && |k.path| >= 1 && k.path[0] == NatToString(i)
  }

  function TypeFields(types: seq<string>): (fs: seq<Field>)
    ensures |fs| == |types|
  {
    seq(|types|, i requires 0 <= i < |types| => (TypeKey(i), types[i]))
  }

  /** The five fields of line item `i`, in the order the nested `forEach` loops visit them. */
  function LineItemFields(i: nat, li: LineItem): (fs: seq<Field>)
    ensures |fs| == 5
  {
    var idx := NatToString(i);
    [ (FieldKey("line_items", [idx, "price_data", "currency"]), li.currency),
      (FieldKey("line_items", [idx, "price_data", "product_data", "name"]), li.name),
      (FieldKey("line_items", [idx, "price_data", "product_data", "description"]), li.description),
      (FieldKey("line_items", [idx, "price_data", "unit_amount"]), NatToString(li.unitAmount)),
      (FieldKey("line_items", [idx, "quantity"]), NatToString(li.quantity)) ]
  }

  function LineItemsFields(items: seq<LineItem>): (fs: seq<Field>)
    ensures |fs| == 5 * |items|
  {
    if items == [] then []
    else LineItemsFields(items[..|items| - 1]) + LineItemFields(|items| - 1, items[|items| - 1])
  }

  function TailFields(d: SessionData): (fs: seq<Field>)
    ensures |fs| == 7
  {
    [ (FieldKey("mode", []), d.mode),
      (FieldKey("currency", []), d.currency),
      (FieldKey("success_url", []), d.successUrl),
      (FieldKey("cancel_url", []), d.cancelUrl),
      (FieldKey("metadata", ["items"]), d.metadataItems),
      (FieldKey("metadata", ["userId"]), d.metadataUserId),
      (FieldKey("payment_method_options", ["boleto", "expires_after_days"]), NatToString(d.boletoExpiresAfterDays)) ]
  }

  /** Every field of the flattened session, in the order the `reduce` writes them. */
  function Fields(d: SessionData): seq<Field> {
    TypeFields(d.paymentMethodTypes) + LineItemsFields(d.lineItems) + TailFields(d)
  }

  // ---------------------------------------------------------------------------
  // Freshness of each write
  // ---------------------------------------------------------------------------

  /**
   * The fields written before line item `n`: payment method types, and line
   * items with an index below `n`.
   */
  predicate WrittenBefore(fs: seq<Field>, n: nat) {
    forall k :: 0 <= k < |fs| ==>
      WellFormedKey(fs[k].0)
      && (fs[k].0.root == "payment_method_types"
          || (fs[k].0.root == "line_items" && |fs[k].0.path| >= 1
              && AllChars(IsAsciiDigit, fs[k].0.path[0]) && DigitsValue(fs[k].0.path[0]) < n))
  }

  lemma NatToStringIsPlain(n: nat)
    ensures IsPlain(NatToString(n))
  {
    var s := NatToString(n);
    assert forall i :: 0 <= i < |s| ==> IsAsciiDigit(s[i]);
  }

  /** Writes the fields in order, each under its rendered key. */
  function PutAll(r: FormRecord, fs: seq<Field>): FormRecord
    decreases |fs|
  {
    if fs == [] then r else PutAll(Put(r, RenderKey(fs[0].0), fs[0].1), fs[1..])
  }

  lemma PutAllStep(r: FormRecord, f: Field, more: seq<Field>)
    ensures PutAll(r, [f] + more) == PutAll(Put(r, RenderKey(f.0), f.1), more)
  {
    assert ([f] + more)[1..] == more;
  }

  lemma PutAllOne(r: FormRecord, f: Field)
    ensures PutAll(r, [f]) == Put(r, RenderKey(f.0), f.1)
  {
    PutAllStep(r, f, []);
    assert [f] + [] == [f];
  }

  /** Writing fields whose keys are distinct and new appends them all. */
  lemma {:induction false} PutAllFresh(fs: seq<Field>, more: seq<Field>)
    requires KeysWellFormed(fs) && KeysWellFormed(more) && DistinctKeys(more)
    requires forall k :: 0 <= k < |more| ==> Fresh(fs, more[k].0)
    ensures PutAll(Render(fs), more) == Render(fs + more)
    ensures DistinctKeys(fs) ==> DistinctKeys(fs + more)
    decreases |more|
  {
    if more == [] {
      assert fs + more == fs;
    } else {
      PutField(fs, more[0]);
      var fs' := fs + [more[0]];
      forall k | 0 <= k < |more[1..]|
        ensures Fresh(fs', more[1..][k].0)
      {
        assert more[1..][k] == more[k + 1];
      }
      PutAllFresh(fs', more[1..]);
      assert fs' + more[1..] == fs + more;
    }
  }

  lemma PlainTypes() ensures IsPlain("payment_method_types") {}

  lemma TypeKeyRendered(i: nat)
    ensures WellFormedKey(TypeKey(i))
    ensures RenderKey(TypeKey(i)) == "payment_method_types" + Seg(NatToString(i))
  {
    NatToStringIsPlain(i);
    PlainTypes();
    RenderKeyOfDisplays("payment_method_types", NatToString(i), "", "", "");
  }

  lemma TypeKeyFresh(types: seq<string>, i: nat)
    requires i < |types|
    ensures Fresh(TypeFields(types[..i]), TypeKey(i))
  {
    var before := TypeFields(types[..i]);
    forall k | 0 <= k < i
      ensures before[k].0 != TypeKey(i)
    {
      if NatToString(k) == NatToString(i) {
        NatToStringInjective(k, i);
      }
    }
  }

  lemma TypeStep(types: seq<string>, i: nat)
    requires i < |types|
    requires WrittenBefore(TypeFields(types[..i]), 0)
    ensures Put(Render(TypeFields(types[..i])), "payment_method_types" + Seg(NatToString(i)), types[i])
            == Render(TypeFields(types[..i + 1]))
    ensures WrittenBefore(TypeFields(types[..i + 1]), 0)
    ensures DistinctKeys(TypeFields(types[..i])) ==> DistinctKeys(TypeFields(types[..i + 1]))
  {
    var before := TypeFields(types[..i]);
    var f := (TypeKey(i), types[i]);
    TypeKeyRendered(i);
    TypeKeyFresh(types, i);
    PutField(before, f);
    TypeFieldsSnoc(types, i);
    WrittenAppend(before, f, 0);
  }

  lemma TypeFieldsSnoc(types: seq<string>, i: nat)
    requires i < |types|
    ensures TypeFields(types[..i]) + [(TypeKey(i), types[i])] == TypeFields(types[..i + 1])
  {
  }

  lemma WrittenAppend(fs: seq<Field>, f: Field, n: nat)
    requires WrittenBefore(fs, n) && WellFormedKey(f.0) && f.0.root == "payment_method_types"
    ensures WrittenBefore(fs + [f], n)
  {
  }

  /** A key of line item `i` is new after everything written before that item. */
  lemma ItemKeyFresh(fs: seq<Field>, i: nat, key: FieldKey)
    requires WrittenBefore(fs, i) && IsItemKey(key, i)
    ensures Fresh(fs, key)
  {
    NatToStringRoundTrip(i);
    forall k | 0 <= k < |fs|
      ensures fs[k].0 != key
    {
      assert fs[k].0.root == "line_items" ==> DigitsValue(fs[k].0.path[0]) < i;
    }
  }

  /** The five writes of line item `i`, keys built as the template literals do. */
  function PutLineItem(acc: FormRecord, idx: string, li: LineItem): FormRecord {
    var acc1 := Put(acc, "line_items" + Seg(idx) + Seg("price_data") + Seg("currency"), li.currency);
    var acc2 := Put(acc1, "line_items" + Seg(idx) + Seg("price_data") + Seg("product_data") + Seg("name"), li.name);
    var acc3 := Put(acc2, "line_items" + Seg(idx) + Seg("price_data") + Seg("product_data") + Seg("description"), li.description);
    var acc4 := Put(acc3, "line_items" + Seg(idx) + Seg("price_data") + Seg("unit_amount"), NatToString(li.unitAmount));
    Put(acc4, "line_items" + Seg(idx) + Seg("quantity"), NatToString(li.quantity))
  }

  lemma PutAll5(r: FormRecord, m: seq<Field>)
    requires |m| == 5
    ensures PutAll(r, m)
            == Put(Put(Put(Put(Put(r, RenderKey(m[0].0), m[0].1), RenderKey(m[1].0), m[1].1),
                   RenderKey(m[2].0), m[2].1), RenderKey(m[3].0), m[3].1), RenderKey(m[4].0), m[4].1)
  {
    var r1 := Put(r, RenderKey(m[0].0), m[0].1);
    var r2 := Put(r1, RenderKey(m[1].0), m[1].1);
    var r3 := Put(r2, RenderKey(m[2].0), m[2].1);
    var r4 := Put(r3, RenderKey(m[3].0), m[3].1);
    assert m == [m[0]] + m[1..];
    assert m[1..] == [m[1]] + m[2..];
    assert m[2..] == [m[2]] + m[3..];
    assert m[3..] == [m[3]] + m[4..];
    assert m[4..] == [m[4]];
    PutAllStep(r, m[0], m[1..]);
    PutAllStep(r1, m[1], m[2..]);
    PutAllStep(r2, m[2], m[3..]);
    PutAllStep(r3, m[3], m[4..]);
    PutAllOne(r4, m[4]);
  }

  lemma PutAll7(r: FormRecord, m: seq<Field>)
    requires |m| == 7
    ensures PutAll(r, m)
            == PutAll(Put(Put(r, RenderKey(m[0].0), m[0].1), RenderKey(m[1].0), m[1].1), m[2..])
  {
    var r1 := Put(r, RenderKey(m[0].0), m[0].1);
    assert m == [m[0]] + m[1..];
    assert m[1..] == [m[1]] + m[2..];
    PutAllStep(r, m[0], m[1..]);
    PutAllStep(r1, m[1], m[2..]);
  }

  lemma PlainLineItems() ensures IsPlain("line_items") {}
  lemma PlainPriceData() ensures IsPlain("price_data") {}
  lemma PlainProductData() ensures IsPlain("product_data") {}
  lemma PlainName() ensures IsPlain("name") {}
  lemma PlainDescription() ensures IsPlain("description") {}
  lemma PlainUnitAmount() ensures IsPlain("unit_amount") {}
  lemma PlainQuantity() ensures IsPlain("quantity") {}

  lemma LineItemKeysWellFormed(i: nat, li: LineItem)
    ensures KeysWellFormed(LineItemFields(i, li))
  {
    var item := LineItemFields(i, li);
    NatToStringIsPlain(i);
    PlainLineItems(); PlainPriceData(); PlainProductData(); PlainName();
    PlainDescription(); PlainUnitAmount(); PlainQuantity();
    assert WellFormedKey(item[0].0) && WellFormedKey(item[1].0) && WellFormedKey(item[2].0);
    assert WellFormedKey(item[3].0) && WellFormedKey(item[4].0);
  }

  lemma LineItemKeysDistinct(i: nat, li: LineItem)
    ensures DistinctKeys(LineItemFields(i, li))
  {
    var item := LineItemFields(i, li);
    var lengths := [3, 4, 4, 3, 2];
    assert forall k :: 0 <= k < 5 ==> |item[k].0.path| == lengths[k];
    assert item[0].0.path[2] != item[3].0.path[2];
    assert item[1].0.path[3] != item[2].0.path[3];
  }

  lemma LineItemKeysRendered(i: nat, li: LineItem)
    ensures var item := LineItemFields(i, li); var idx := NatToString(i);
      && RenderKey(item[0].0) == "line_items" + Seg(idx) + Seg("price_data") + Seg("currency")
      && RenderKey(item[1].0) == "line_items" + Seg(idx) + Seg("price_data") + Seg("product_data") + Seg("name")
      && RenderKey(item[2].0) == "line_items" + Seg(idx) + Seg("price_data") + Seg("product_data") + Seg("description")
      && RenderKey(item[3].0) == "line_items" + Seg(idx) + Seg("price_data") + Seg("unit_amount")
      && RenderKey(item[4].0) == "line_items" + Seg(idx) + Seg("quantity")
  {
    var idx := NatToString(i);
    RenderKeyOfDisplays("line_items", idx, "price_data", "currency", "");
    RenderKeyOfDisplays("line_items", idx, "price_data", "product_data", "name");
    RenderKeyOfDisplays("line_items", idx, "price_data", "product_data", "description");
    RenderKeyOfDisplays("line_items", idx, "price_data", "unit_amount", "");
    RenderKeyOfDisplays("line_items", idx, "quantity", "", "");
  }

  lemma LineItemKeys(i: nat, li: LineItem)
    ensures KeysWellFormed(LineItemFields(i, li)) && DistinctKeys(LineItemFields(i, li))
    ensures forall r :: PutAll(r, LineItemFields(i, li)) == PutLineItem(r, NatToString(i), li)
  {
    LineItemKeysWellFormed(i, li);
    LineItemKeysDistinct(i, li);
    LineItemKeysRendered(i, li);
    forall r
      ensures PutAll(r, LineItemFields(i, li)) == PutLineItem(r, NatToString(i), li)
    {
      PutAll5(r, LineItemFields(i, li));
    }
  }

  lemma ItemKeysFresh(fs: seq<Field>, i: nat, li: LineItem)
    requires WrittenBefore(fs, i)
    ensures forall k :: 0 <= k < 5 ==> Fresh(fs, LineItemFields(i, li)[k].0)
  {
    var item := LineItemFields(i, li);
    ItemKeyFresh(fs, i, item[0].0);
    ItemKeyFresh(fs, i, item[1].0);
    ItemKeyFresh(fs, i, item[2].0);
    ItemKeyFresh(fs, i, item[3].0);
    ItemKeyFresh(fs, i, item[4].0);
  }

  lemma WrittenAfterItem(fs: seq<Field>, i: nat, li: LineItem)
    requires WrittenBefore(fs, i)
    ensures WrittenBefore(fs + LineItemFields(i, li), i + 1)
  {
    var item := LineItemFields(i, li);
    LineItemKeysWellFormed(i, li);
    NatToStringRoundTrip(i);
    assert forall k :: 0 <= k < 5 ==> IsItemKey(item[k].0, i);
  }

  lemma ItemStep(fs: seq<Field>, i: nat, li: LineItem)
    requires WrittenBefore(fs, i)
    ensures PutLineItem(Render(fs), NatToString(i), li) == Render(fs + LineItemFields(i, li))
    ensures WrittenBefore(fs + LineItemFields(i, li), i + 1)
    ensures DistinctKeys(fs) ==> DistinctKeys(fs + LineItemFields(i, li))
  {
    LineItemKeys(i, li);
    ItemKeysFresh(fs, i, li);
    PutAllFresh(fs, LineItemFields(i, li));
    WrittenAfterItem(fs, i, li);
  }

  /** The seven writes after the line items, keys built as the template literals do. */
  function PutTail(acc: FormRecord, d: SessionData): FormRecord {
    var acc1 := Put(acc, "mode", d.mode);
    var acc2 := Put(acc1, "currency", d.currency);
    var acc3 := Put(acc2, "success_url", d.successUrl);
    var acc4 := Put(acc3, "cancel_url", d.cancelUrl);
    var acc5 := Put(acc4, "metadata" + Seg("items"), d.metadataItems);
    var acc6 := Put(acc5, "metadata" + Seg("userId"), d.metadataUserId);
    Put(acc6, "payment_method_options" + Seg("boleto") + Seg("expires_after_days"), NatToString(d.boletoExpiresAfterDays))
  }

  lemma PlainMode() ensures IsPlain("mode") {}
  lemma PlainCurrency() ensures IsPlain("currency") {}
  lemma PlainSuccess() ensures IsPlain("success_url") {}
  lemma PlainCancel() ensures IsPlain("cancel_url") {}
  lemma PlainMetadata() ensures IsPlain("metadata") {}
  lemma PlainOptions() ensures IsPlain("payment_method_options") {}
  lemma PlainExpires() ensures IsPlain("expires_after_days") {}
  lemma PlainItems() ensures IsPlain("items") {}
  lemma PlainUserId() ensures IsPlain("userId") {}
  lemma PlainBoleto() ensures IsPlain("boleto") {}

  lemma TailKeysWellFormed(d: SessionData)
    ensures KeysWellFormed(TailFields(d))
  {
    var tail := TailFields(d);
    PlainMode(); PlainCurrency(); PlainSuccess(); PlainCancel(); PlainMetadata(); PlainOptions(); PlainExpires();
    PlainItems(); PlainUserId(); PlainBoleto();
    assert WellFormedKey(tail[0].0) && WellFormedKey(tail[1].0) && WellFormedKey(tail[2].0) && WellFormedKey(tail[3].0);
    assert WellFormedKey(tail[4].0) && WellFormedKey(tail[5].0) && WellFormedKey(tail[6].0);
  }

  lemma TailKeysDistinct(d: SessionData)
    ensures DistinctKeys(TailFields(d))
  {
    var tail := TailFields(d);
    var roots := ["mode", "currency", "success_url", "cancel_url", "metadata", "metadata", "payment_method_options"];
    assert forall k :: 0 <= k < 7 ==> tail[k].0.root == roots[k];
    assert forall i, j :: 0 <= i < j < 7 && !(i == 4 && j == 5) ==> roots[i] != roots[j];
    assert tail[4].0.path != tail[5].0.path;
  }

  lemma TailKeys(d: SessionData)
    ensures KeysWellFormed(TailFields(d)) && DistinctKeys(TailFields(d))
    ensures forall r :: PutAll(r, TailFields(d)) == PutTail(r, d)
  {
    var tail := TailFields(d);
    TailKeysWellFormed(d);
    TailKeysDistinct(d);
    RenderKeyOfDisplays("mode", "", "", "", "");
    RenderKeyOfDisplays("currency", "", "", "", "");
    RenderKeyOfDisplays("success_url", "", "", "", "");
    RenderKeyOfDisplays("cancel_url", "", "", "", "");
    RenderKeyOfDisplays("metadata", "items", "", "", "");
    RenderKeyOfDisplays("metadata", "userId", "", "", "");
    RenderKeyOfDisplays("payment_method_options", "boleto", "expires_after_days", "", "");
    forall r
      ensures PutAll(r, tail) == PutTail(r, d)
    {
      PutAll7(r, tail);
      PutAll5(Put(Put(r, RenderKey(tail[0].0), tail[0].1), RenderKey(tail[1].0), tail[1].1), tail[2..]);
    }
  }

  lemma TailStep(fs: seq<Field>, d: SessionData, n: nat)
    requires WrittenBefore(fs, n)
    ensures PutTail(Render(fs), d) == Render(fs + TailFields(d))
    ensures DistinctKeys(fs) ==> DistinctKeys(fs + TailFields(d))
  {
    TailKeys(d);
    PutAllFresh(fs, TailFields(d));
  }

  lemma TypesWritten(types: seq<string>)
    ensures WrittenBefore(TypeFields(types), 0) && DistinctKeys(TypeFields(types))
  {
    var i := 0;
    while i < |types|
      invariant 0 <= i <= |types|
      invariant WrittenBefore(TypeFields(types[..i]), 0) && DistinctKeys(TypeFields(types[..i]))
    {
      TypeStep(types, i);
      i := i + 1;
    }
    assert types[..|types|] == types;
  }

  lemma ItemsWritten(written: seq<Field>, items: seq<LineItem>)
    requires WrittenBefore(written, 0) && DistinctKeys(written)
    ensures WrittenBefore(written + LineItemsFields(items), |items|)
    ensures DistinctKeys(written + LineItemsFields(items))
  {
    var i := 0;
    while i < |items|
      invariant 0 <= i <= |items|
      invariant WrittenBefore(written + LineItemsFields(items[..i]), i)
      invariant DistinctKeys(written + LineItemsFields(items[..i]))
    {
      ItemStep(written + LineItemsFields(items[..i]), i, items[i]);
      LineItemsPrefix(written, items, i);
      i := i + 1;
    }
    assert items[..|items|] == items;
  }

  lemma WrittenConcat(fs: seq<Field>, more: seq<Field>, n: nat)
    requires WrittenBefore(fs, n) && KeysWellFormed(more)
    ensures KeysWellFormed(fs + more)
  {
  }

  /** No two fields of the session share a key, and every key is well formed. */
  lemma FieldKeysDistinct(d: SessionData)
    ensures KeysWellFormed(Fields(d)) && DistinctKeys(Fields(d))
  {
    var types := TypeFields(d.paymentMethodTypes);
    TypesWritten(d.paymentMethodTypes);
    ItemsWritten(types, d.lineItems);
    var written := types + LineItemsFields(d.lineItems);
    TailStep(written, d, |d.lineItems|);
    TailKeysWellFormed(d);
    WrittenConcat(written, TailFields(d), |d.lineItems|);
  }

  // ---------------------------------------------------------------------------
  // Reading the record back
  // ---------------------------------------------------------------------------

  /** The value stored under a key: the first entry that has it. */
  function Get(r: FormRecord, key: string): (v: Option<string>)
    ensures v.Some? <==> exists j :: 0 <= j < |r| && r[j].0 == key
  {
    if r == [] then None
    else if r[0].0 == key then Some(r[0].1)
    else
      var v := Get(r[1..], key);
      assert v.Some? ==> exists j :: 1 <= j < |r| && r[j].0 == key by {
        if v.Some? {
          var j :| 0 <= j < |r[1..]| && r[1..][j].0 == key;
          assert r[j + 1].0 == key;
        }
      }
      v
  }

  lemma {:induction false} GetDistinct(r: FormRecord, j: nat)
    requires j < |r|
    requires forall a, b :: 0 <= a < b < |r| ==> r[a].0 != r[b].0
    ensures Get(r, r[j].0) == Some(r[j].1)
  {
    if j > 0 {
      GetDistinct(r[1..], j - 1);
    }
  }

  /** The rendered keys of the session are pairwise different strings. */
  lemma RenderedKeysDistinct(d: SessionData)
    ensures forall a, b :: 0 <= a < b < |Render(Fields(d))| ==> Render(Fields(d))[a].0 != Render(Fields(d))[b].0
  {
    var fs := Fields(d);
    FieldKeysDistinct(d);
    forall a, b | 0 <= a < b < |fs|
      ensures Render(fs)[a].0 != Render(fs)[b].0
    {
      RenderKeyInjective(fs[a].0, fs[b].0);
    }
  }

  /**
   * No write of the `reduce` overwrites another: every field of the session,
   * looked up under its rendered key, gives its own value.
   */
  lemma EveryFieldReadsBack(d: SessionData, j: nat)
    requires j < |Fields(d)|
    ensures Get(Render(Fields(d)), RenderKey(Fields(d)[j].0)) == Some(Fields(d)[j].1)
  {
    RenderedKeysDistinct(d);
    GetDistinct(Render(Fields(d)), j);
  }

  // ---------------------------------------------------------------------------
  // The reduce
  // ---------------------------------------------------------------------------

  /**
   * The `payment_method_types` branch of the `reduce`: one write per array
   * element, into the still empty accumulator (it is the session's first key).
   */
  method PutTypes(types: seq<string>) returns (acc: FormRecord)
    ensures acc == Render(TypeFields(types))
    ensures WrittenBefore(TypeFields(types), 0)
  {
    acc := [];
    for i := 0 to |types|
      invariant acc == Render(TypeFields(types[..i]))
      invariant WrittenBefore(TypeFields(types[..i]), 0)
    {
      TypeStep(types, i);
      acc := Put(acc, "payment_method_types" + Seg(NatToString(i)), types[i]);
    }
    assert types[..|types|] == types;
  }

  lemma LineItemsPrefix(written: seq<Field>, items: seq<LineItem>, i: nat)
    requires i < |items|
    ensures written + LineItemsFields(items[..i]) + LineItemFields(i, items[i])
            == written + LineItemsFields(items[..i + 1])
  {
    assert items[..i + 1][..i] == items[..i];
  }

  /** The `line_items` branch of the `reduce`: five writes per line item. */
  method PutLineItems(acc0: FormRecord, written: seq<Field>, items: seq<LineItem>) returns (acc: FormRecord)
    requires acc0 == Render(written) && WrittenBefore(written, 0)
    ensures acc == Render(written + LineItemsFields(items))
    ensures WrittenBefore(written + LineItemsFields(items), |items|)
  {
    acc := acc0;
    for i := 0 to |items|
      invariant acc == Render(written + LineItemsFields(items[..i]))
      invariant WrittenBefore(written + LineItemsFields(items[..i]), i)
    {
      var before := written + LineItemsFields(items[..i]);
      ItemStep(before, i, items[i]);
      LineItemsPrefix(written, items, i);
      var idx := NatToString(i);
      ghost var start := acc;
      acc := Put(acc, "line_items" + Seg(idx) + Seg("price_data") + Seg("currency"), items[i].currency);
      acc := Put(acc, "line_items" + Seg(idx) + Seg("price_data") + Seg("product_data") + Seg("name"), items[i].name);
      acc := Put(acc, "line_items" + Seg(idx) + Seg("price_data") + Seg("product_data") + Seg("description"), items[i].description);
      acc := Put(acc, "line_items" + Seg(idx) + Seg("price_data") + Seg("unit_amount"), NatToString(items[i].unitAmount));
      acc := Put(acc, "line_items" + Seg(idx) + Seg("quantity"), NatToString(items[i].quantity));
      assert acc == PutLineItem(start, idx, items[i]);
    }
    assert items[..|items|] == items;
  }

  /**
   * The `reduce` over the entries of `checkoutSessionData` (route.ts lines
   * 168-214), starting from the empty record: arrays are indexed, nested
   * objects bracketed, numbers stringified, each entry a write into the
   * accumulator.
   */
  method BuildFormRecord(d: SessionData) returns (acc: FormRecord)
    ensures acc == Render(Fields(d))
    ensures |acc| == |d.paymentMethodTypes| + 5 * |d.lineItems| + 7
    ensures forall a, b :: 0 <= a < b < |acc| ==> acc[a].0 != acc[b].0
  {
    RenderedKeysDistinct(d);
    acc := PutTypes(d.paymentMethodTypes);
    acc := PutLineItems(acc, TypeFields(d.paymentMethodTypes), d.lineItems);
    TailStep(TypeFields(d.paymentMethodTypes) + LineItemsFields(d.lineItems), d, |d.lineItems|);
    acc := Put(acc, "mode", d.mode);
    acc := Put(acc, "currency", d.currency);
    acc := Put(acc, "success_url", d.successUrl);
    acc := Put(acc, "cancel_url", d.cancelUrl);
    acc := Put(acc, "metadata" + Seg("items"), d.metadataItems);
    acc := Put(acc, "metadata" + Seg("userId"), d.metadataUserId);
    acc := Put(acc, "payment_method_options" + Seg("boleto") + Seg("expires_after_days"), NatToString(d.boletoExpiresAfterDays));
  }
}
