/**
  The claim-line explosion: every element of the JSON array held in a row's
  `item` cell becomes one record of fourteen columns. Nine of them are
  adjudication amounts picked by substring matches on category codes.

  `json.loads` is the parameter `parse`; a cell pandas reads as NaN is `None`.
  Record values stay JSON values; how pandas renders them in the CSV is not
  part of this model.
 */
module ItemLines {
  import opened Wrappers
  import opened Json
  import opened Text
  import opened Seqs

  /** The output columns of an item record. */
  datatype Column =
    | Sequence | ServiceDate | NdcCode | ProductDisplay | Quantity
    | TotalDrugCost | BenefitAmount | PatientPaid | PriorPayerPaid | LowIncomeSubsidy
    | CoinsuranceBelowThreshold | CoinsuranceAboveThreshold | OtherTroop | GapDiscount

  /** The record key, and CSV header, of each column. */
  function ColumnName(c: Column): string {
    match c
    case Sequence => "sequence"
    case ServiceDate => "service_date"
    case NdcCode => "ndc_code"
    case ProductDisplay => "product_display"
    case Quantity => "quantity"
    case TotalDrugCost => "total_drug_cost"
    case BenefitAmount => "benefit_amount"
    case PatientPaid => "patient_paid"
    case PriorPayerPaid => "prior_payer_paid"
    case LowIncomeSubsidy => "low_income_subsidy"
    case CoinsuranceBelowThreshold => "coinsurance_below_threshold"
    case CoinsuranceAboveThreshold => "coinsurance_above_threshold"
    case OtherTroop => "other_troop"
    case GapDiscount => "gap_discount"
  }

  /** `record`: a value per column. */
  type Record = map<Column, Json>

  /** The category-code substrings, in the order of the `elif` chain. */
  const AdjCodes: seq<string> := [
    "cvrd_d_plan_pd_amt", "gdc_blw_oopt_amt", "gdc_abv_oopt_amt",
    "ptnt_pay_amt", "othr_troop_amt", "lics_amt", "plro_amt",
    "tot_rx_cst_amt", "rptd_gap_dscnt_num"]

  /** The column each substring of `AdjCodes` sets, position by position. */
  const AdjFields: seq<Column> := [
    BenefitAmount, CoinsuranceBelowThreshold, CoinsuranceAboveThreshold,
    PatientPaid, OtherTroop, LowIncomeSubsidy, PriorPayerPaid,
    TotalDrugCost, GapDiscount]

  /** `column_order`: the output columns, in output order. */
  const ColumnOrder: seq<Column> := [
    Sequence, ServiceDate, NdcCode, ProductDisplay, Quantity,
    TotalDrugCost, BenefitAmount, PatientPaid, PriorPayerPaid,
    LowIncomeSubsidy, CoinsuranceBelowThreshold,
    CoinsuranceAboveThreshold, OtherTroop, GapDiscount]

  // ---------------------------------------------------------------------------
  // Reading one item
  // ---------------------------------------------------------------------------

  /** `item.get('productOrService', {}).get('coding', [])` */
  function ProductCodings(item: Json): seq<Json> {
    AsList(GetOr(GetOr(item, "productOrService", EmptyObject), "coding", EmptyList))
  }

  /** `item.get('adjudication', [])` */
  function Adjudications(item: Json): seq<Json> {
    AsList(GetOr(item, "adjudication", EmptyList))
  }

  /** `adj.get('category', {}).get('coding', [])` */
  function CategoryCodings(adj: Json): seq<Json> {
    AsList(GetOr(GetOr(adj, "category", EmptyObject), "coding", EmptyList))
  }

  /** `adj.get('amount', {}).get('value', '')` */
  function AmountOf(adj: Json): Json {
    GetOr(GetOr(adj, "amount", EmptyObject), "value", EmptyText)
  }

  /** `coding.get('code', '')` */
  function CodeOf(coding: Json): Json {
    GetOr(coding, "code", EmptyText)
  }

  /**
    The branch of the `elif` chain a category code takes: the first substring
    of `AdjCodes` that occurs in `code`, or `|AdjCodes|` when none does.
   */
  function Slot(code: Json): (k: nat)
    ensures k <= |AdjCodes|
  {
    FirstWhere(AdjCodes, sub => Includes(code, sub))
  }

  /**
    The `elif` chain: a code takes the branch of the first substring it
    contains, and none when it contains none of them.
   */
  lemma {:induction false} SlotFollowsChain(code: Json)
    ensures Slot(code) < |AdjCodes| ==> Includes(code, AdjCodes[Slot(code)])
    ensures forall j :: 0 <= j < Slot(code) ==> !Includes(code, AdjCodes[j])
    ensures Slot(code) == |AdjCodes| <==> forall j :: 0 <= j < |AdjCodes| ==> !Includes(code, AdjCodes[j])
  {
  }

  /**
    `in` on a list-valued code tests its elements: the list takes the branch
    of the first substring that is one of its elements.
   */
  lemma ListCodeMatchesByElement(items: seq<Json>, k: nat)
    requires k < |AdjCodes| && JStr(AdjCodes[k]) in items
    requires forall j :: 0 <= j < k ==> JStr(AdjCodes[j]) !in items
    ensures Slot(JArr(items)) == k
  {
    SlotFollowsChain(JArr(items));
  }

  /**
    A list-valued code none of whose elements is one of the substrings takes
    no branch, whatever text its elements contain.
   */
  lemma ListCodeWithoutElementMatch(items: seq<Json>)
    requires forall j :: 0 <= j < |AdjCodes| ==> JStr(AdjCodes[j]) !in items
    ensures Slot(JArr(items)) == |AdjCodes|
  {
    SlotFollowsChain(JArr(items));
  }

  /** One coding visited by the adjudication loops: its branch and the adjudication's amount. */
  datatype Hit = Hit(slot: nat, amount: Json)

  /** Hit `h` assigns column `f`. */
  predicate Sets(h: Hit, f: Column) {
    h.slot < |AdjFields| && AdjFields[h.slot] == f
  }

  /** The hits of one adjudication's codings, in coding order. */
  function CodingHits(codings: seq<Json>, amount: Json): (hs: seq<Hit>)
    ensures |hs| == |codings|
  {
    if |codings| == 0 then []
    else CodingHits(codings[..|codings| - 1], amount) + [Hit(Slot(CodeOf(codings[|codings| - 1])), amount)]
  }

  /** The hits of all adjudications, in adjudication order and then coding order. */
  function Hits(adjs: seq<Json>): seq<Hit> {
    if |adjs| == 0 then []
    else
      var adj := adjs[|adjs| - 1];
      Hits(adjs[..|adjs| - 1]) + CodingHits(CategoryCodings(adj), AmountOf(adj))
  }

  /** The effect of one hit on the record: its branch's column takes the amount. */
  function Put(r: Record, h: Hit): Record {
    if h.slot < |AdjFields| then r[AdjFields[h.slot] := h.amount] else r
  }

  /** The record after the hits `hs`, applied in order. */
  function ApplyHits(r: Record, hs: seq<Hit>): Record {
    if |hs| == 0 then r else Put(ApplyHits(r, hs[..|hs| - 1]), hs[|hs| - 1])
  }

  /** The record before the adjudication loops: the read fields and nine empty amounts. */
  function BaseRecord(item: Json): Record {
    var codings := ProductCodings(item);
    var r := map[]
      [Sequence := GetOr(item, "sequence", EmptyText)]
      [ServiceDate := GetOr(item, "servicedDate", EmptyText)]
      [Quantity := GetOr(GetOr(item, "quantity", EmptyObject), "value", EmptyText)];
    var r := if |codings| > 0
      then r[NdcCode := GetOr(codings[0], "code", EmptyText)]
            [ProductDisplay := GetOr(codings[0], "display", EmptyText)]
      else r[NdcCode := EmptyText][ProductDisplay := EmptyText];
    r[BenefitAmount := EmptyText]
     [CoinsuranceBelowThreshold := EmptyText]
     [CoinsuranceAboveThreshold := EmptyText]
     [PatientPaid := EmptyText]
     [OtherTroop := EmptyText]
     [LowIncomeSubsidy := EmptyText]
     [PriorPayerPaid := EmptyText]
     [TotalDrugCost := EmptyText]
     [GapDiscount := EmptyText]
  }

  /** The hits of an item's adjudications. */
  function ItemHits(item: Json): seq<Hit> {
    Hits(Adjudications(item))
  }

  /** The record the loop body builds for one item. */
  function RecordOf(item: Json): Record {
    ApplyHits(BaseRecord(item), ItemHits(item))
  }

  // ---------------------------------------------------------------------------
  // Reading the whole file
  // ---------------------------------------------------------------------------

  /** The items of one `item` cell: none when it is NaN or does not parse. */
  function ItemsOf(cell: Option<string>, parse: string -> Option<Json>): seq<Json> {
    match cell
    case None => []
    case Some(text) =>
      match parse(text)
      case None => []
      case Some(v) => AsList(v)
  }

  /** One record per item, in item order. */
  function RecordsOf(items: seq<Json>): seq<Record> {
    Map(items, RecordOf)
  }

  /** `extracted_data` after the loop over the rows of `item_raw.csv`. */
  function ItemRecords(cells: seq<Option<string>>, parse: string -> Option<Json>): seq<Record> {
    if |cells| == 0 then []
    else ItemRecords(cells[..|cells| - 1], parse) + RecordsOf(ItemsOf(cells[|cells| - 1], parse))
  }

  // ---------------------------------------------------------------------------
  // The loops
  // ---------------------------------------------------------------------------

  lemma {:induction false} ApplyHitsSnoc(r: Record, hs: seq<Hit>, h: Hit)
    ensures ApplyHits(r, hs + [h]) == Put(ApplyHits(r, hs), h)
  {
    assert (hs + [h])[..|hs|] == hs;
  }

  lemma {:induction false} CodingHitsSnoc(codings: seq<Json>, amount: Json, c: nat)
    requires c < |codings|
    ensures CodingHits(codings[..c + 1], amount)
         == CodingHits(codings[..c], amount) + [Hit(Slot(CodeOf(codings[c])), amount)]
  {
    assert codings[..c + 1][..c] == codings[..c];
  }

  lemma {:induction false} HitsSnoc(adjs: seq<Json>, a: nat)
    requires a < |adjs|
    ensures Hits(adjs[..a + 1]) == Hits(adjs[..a]) + CodingHits(CategoryCodings(adjs[a]), AmountOf(adjs[a]))
  {
    assert adjs[..a + 1][..a] == adjs[..a];
  }

  /** Applying two runs of hits one after the other is applying their concatenation. */
  lemma {:induction false} ApplyHitsAppend(r: Record, xs: seq<Hit>, ys: seq<Hit>)
    ensures ApplyHits(r, xs + ys) == ApplyHits(ApplyHits(r, xs), ys)
    decreases |ys|
  {
    if |ys| == 0 {
      assert xs + ys == xs;
    } else {
      var n := |ys| - 1;
      ApplyHitsAppend(r, xs, ys[..n]);
      assert xs + ys == (xs + ys[..n]) + [ys[n]];
      assert ys == ys[..n] + [ys[n]];
      ApplyHitsSnoc(r, xs + ys[..n], ys[n]);
      ApplyHitsSnoc(ApplyHits(r, xs), ys[..n], ys[n]);
    }
  }

  /** The assignments before the adjudication loops. */
  method StartRecord(item: Json) returns (record: Record)
    ensures record == BaseRecord(item)
  {
    record := map[];
    record := record[Sequence := GetOr(item, "sequence", EmptyText)];
    record := record[ServiceDate := GetOr(item, "servicedDate", EmptyText)];
    record := record[Quantity := GetOr(GetOr(item, "quantity", EmptyObject), "value", EmptyText)];
    var productCoding := ProductCodings(item);
    if |productCoding| > 0 {
      record := record[NdcCode := GetOr(productCoding[0], "code", EmptyText)];
      record := record[ProductDisplay := GetOr(productCoding[0], "display", EmptyText)];
    } else {
      record := record[NdcCode := EmptyText];
      record := record[ProductDisplay := EmptyText];
    }
    record := record[BenefitAmount := EmptyText];
    record := record[CoinsuranceBelowThreshold := EmptyText];
    record := record[CoinsuranceAboveThreshold := EmptyText];
    record := record[PatientPaid := EmptyText];
    record := record[OtherTroop := EmptyText];
    record := record[LowIncomeSubsidy := EmptyText];
    record := record[PriorPayerPaid := EmptyText];
    record := record[TotalDrugCost := EmptyText];
    record := record[GapDiscount := EmptyText];
  }

  /** One pass through the `elif` chain: the first matching column takes `amount`. */
  method ApplyCoding(start: Record, coding: Json, amount: Json) returns (record: Record)
    ensures record == Put(start, Hit(Slot(CodeOf(coding)), amount))
  {
    record := start;
    var slot := Slot(CodeOf(coding));
    if slot < |AdjFields| {
      record := record[AdjFields[slot] := amount];
    }
  }

  /** `for coding in category_codings`: each code's branch of the `elif` chain takes `amount`. */
  method ApplyCodings(start: Record, codings: seq<Json>, amount: Json) returns (record: Record)
    ensures record == ApplyHits(start, CodingHits(codings, amount))
  {
    record := start;
    var c := 0;
    while c < |codings|
      invariant 0 <= c <= |codings|
      invariant record == ApplyHits(start, CodingHits(codings[..c], amount))
    {
      record := ApplyCoding(record, codings[c], amount);
      CodingHitsSnoc(codings, amount, c);
      ApplyHitsSnoc(start, CodingHits(codings[..c], amount), Hit(Slot(CodeOf(codings[c])), amount));
      c := c + 1;
    }
    assert codings[..c] == codings;
  }

  /** `for adj in adjudications`: every coding of every adjudication, in order, on top of `base`. */
  method ApplyAdjudications(base: Record, adjudications: seq<Json>) returns (record: Record)
    ensures record == ApplyHits(base, Hits(adjudications))
  {
    record := base;
    var a := 0;
    while a < |adjudications|
      invariant 0 <= a <= |adjudications|
      invariant record == ApplyHits(base, Hits(adjudications[..a]))
    {
      var categoryCodings := CategoryCodings(adjudications[a]);
      var amountValue := AmountOf(adjudications[a]);
      record := ApplyCodings(record, categoryCodings, amountValue);
      HitsSnoc(adjudications, a);
      ApplyHitsAppend(base, Hits(adjudications[..a]), CodingHits(categoryCodings, amountValue));
      a := a + 1;
    }
    assert adjudications[..a] == adjudications;
  }

  /** The body of `for item in items`: one record, built field by field. */
  method BuildRecord(item: Json) returns (record: Record)
    ensures record == RecordOf(item)
  {
    record := StartRecord(item);
    record := ApplyAdjudications(record, Adjudications(item));
  }

  lemma {:induction false} ItemRecordsSnoc(cells: seq<Option<string>>, parse: string -> Option<Json>, r: nat)
    requires r < |cells|
    ensures ItemRecords(cells[..r + 1], parse) == ItemRecords(cells[..r], parse) + RecordsOf(ItemsOf(cells[r], parse))
  {
    assert cells[..r + 1][..r] == cells[..r];
  }

  /** The loop over the rows of `item_raw.csv`, appending one record per item. */
  method ExtractItems(cells: seq<Option<string>>, parse: string -> Option<Json>) returns (extracted: seq<Record>)
    ensures extracted == ItemRecords(cells, parse)
  {
    extracted := [];
    var r := 0;
    while r < |cells|
      invariant 0 <= r <= |cells|
      invariant extracted == ItemRecords(cells[..r], parse)
    {
      ItemRecordsSnoc(cells, parse, r);
      var parsed := if cells[r].Some? then parse(cells[r].value) else None;
      if parsed.None? {
        r := r + 1;
        continue;
      }
      var items := AsList(parsed.value);
      assert items == ItemsOf(cells[r], parse);
      var i := 0;
      while i < |items|
        invariant 0 <= i <= |items|
        invariant extracted == ItemRecords(cells[..r], parse) + RecordsOf(items[..i])
      {
        var record := BuildRecord(items[i]);
        MapSnoc(items, RecordOf, i);
        extracted := extracted + [record];
        i := i + 1;
      }
      assert items[..i] == items;
      r := r + 1;
    }
    assert cells[..r] == cells;
  }

  // ---------------------------------------------------------------------------
  // Properties of the adjudication columns
  // ---------------------------------------------------------------------------

  /** The last hit that assigns `f` decides its value, whatever came before. */
  lemma {:induction false} LastMatchWins(r: Record, hs: seq<Hit>, f: Column, k: nat)
    requires k < |hs| && Sets(hs[k], f)
    requires forall j :: k < j < |hs| ==> !Sets(hs[j], f)
    ensures f in ApplyHits(r, hs) && ApplyHits(r, hs)[f] == hs[k].amount
    decreases |hs|
  {
    var n := |hs| - 1;
    assert hs[..n][..k] == hs[..k];
    if k < n {
      assert forall j :: k < j < n ==> hs[..n][j] == hs[j];
      LastMatchWins(r, hs[..n], f, k);
    } else {
      assert hs[n] == hs[k];
    }
  }

  /** A column that no hit assigns keeps its value from before the loops. */
  lemma {:induction false} UnmatchedFieldKept(r: Record, hs: seq<Hit>, f: Column)
    requires f in r
    requires forall j :: 0 <= j < |hs| ==> !Sets(hs[j], f)
    ensures f in ApplyHits(r, hs) && ApplyHits(r, hs)[f] == r[f]
    decreases |hs|
  {
    if |hs| > 0 {
      var n := |hs| - 1;
      assert forall j :: 0 <= j < n ==> hs[..n][j] == hs[j];
      UnmatchedFieldKept(r, hs[..n], f);
      assert !Sets(hs[n], f);
    }
  }

  /** A column outside `AdjFields` is never assigned by a hit. */
  lemma {:induction false} OtherColumnKept(r: Record, hs: seq<Hit>, f: Column)
    requires f in r && f !in AdjFields
    ensures f in ApplyHits(r, hs) && ApplyHits(r, hs)[f] == r[f]
  {
    forall j | 0 <= j < |hs|
      ensures !Sets(hs[j], f)
    {
      if hs[j].slot < |AdjFields| {
        assert AdjFields[hs[j].slot] in AdjFields;
      }
    }
    UnmatchedFieldKept(r, hs, f);
  }

  /** Hits only ever assign adjudication columns, so the set of columns does not change. */
  lemma {:induction false} ApplyHitsKeys(r: Record, hs: seq<Hit>)
    requires forall s :: 0 <= s < |AdjFields| ==> AdjFields[s] in r
    ensures ApplyHits(r, hs).Keys == r.Keys
    decreases |hs|
  {
    if |hs| > 0 {
      ApplyHitsKeys(r, hs[..|hs| - 1]);
    }
  }

  // ---------------------------------------------------------------------------
  // Properties of one record
  // ---------------------------------------------------------------------------

  /** Every record has exactly the fourteen output columns. */
  lemma {:induction false} RecordColumns(item: Json)
    ensures forall c :: c in RecordOf(item) <==> c in ColumnOrder
  {
    ApplyHitsKeys(BaseRecord(item), Hits(Adjudications(item)));
  }

  /** An adjudication column that no category code picks stays "". */
  lemma {:induction false} AdjudicationUnmatched(item: Json, f: Column)
    requires f in AdjFields
    requires forall j :: 0 <= j < |ItemHits(item)| ==> !Sets(ItemHits(item)[j], f)
    ensures f in RecordOf(item) && RecordOf(item)[f] == EmptyText
  {
    assert f in BaseRecord(item) && BaseRecord(item)[f] == EmptyText;
    UnmatchedFieldKept(BaseRecord(item), ItemHits(item), f);
  }

  /**
    An adjudication column picked by some category code holds the amount of
    the last adjudication, in array order and then coding order, that picks it.
   */
  lemma {:induction false} AdjudicationLastMatch(item: Json, f: Column, k: nat)
    requires k < |ItemHits(item)| && Sets(ItemHits(item)[k], f)
    requires forall j :: k < j < |ItemHits(item)| ==> !Sets(ItemHits(item)[j], f)
    ensures f in RecordOf(item) && RecordOf(item)[f] == ItemHits(item)[k].amount
  {
    LastMatchWins(BaseRecord(item), ItemHits(item), f, k);
  }

  /** A column outside the adjudication amounts keeps the value it got before the loops. */
  lemma {:induction false} BaseColumnKept(item: Json, f: Column)
    requires f in BaseRecord(item) && f !in AdjFields
    ensures f in RecordOf(item) && RecordOf(item)[f] == BaseRecord(item)[f]
  {
    OtherColumnKept(BaseRecord(item), ItemHits(item), f);
  }

  /** `ndc_code` and `product_display` come from the first product coding, "" when there is none. */
  lemma {:induction false} ProductColumns(item: Json)
    ensures var codings := ProductCodings(item);
      NdcCode in RecordOf(item) && ProductDisplay in RecordOf(item) &&
      RecordOf(item)[NdcCode] == (if codings == [] then EmptyText else GetOr(codings[0], "code", EmptyText)) &&
      RecordOf(item)[ProductDisplay] == (if codings == [] then EmptyText else GetOr(codings[0], "display", EmptyText))
  {
    BaseColumnKept(item, NdcCode);
    BaseColumnKept(item, ProductDisplay);
  }

  lemma {:induction false} BaseScalars(item: Json)
    ensures Sequence in BaseRecord(item) && BaseRecord(item)[Sequence] == GetOr(item, "sequence", EmptyText)
    ensures ServiceDate in BaseRecord(item) && BaseRecord(item)[ServiceDate] == GetOr(item, "servicedDate", EmptyText)
    ensures Quantity in BaseRecord(item)
         && BaseRecord(item)[Quantity] == GetOr(GetOr(item, "quantity", EmptyObject), "value", EmptyText)
  {
  }

  /** `sequence`, `service_date` and `quantity` are read from the item, "" when absent. */
  lemma {:induction false} ScalarColumns(item: Json)
    ensures Sequence in RecordOf(item) && RecordOf(item)[Sequence] == GetOr(item, "sequence", EmptyText)
    ensures ServiceDate in RecordOf(item) && RecordOf(item)[ServiceDate] == GetOr(item, "servicedDate", EmptyText)
    ensures Quantity in RecordOf(item)
         && RecordOf(item)[Quantity] == GetOr(GetOr(item, "quantity", EmptyObject), "value", EmptyText)
  {
    var base, hs := BaseRecord(item), ItemHits(item);
    assert RecordOf(item) == ApplyHits(base, hs);
    BaseScalars(item);
    OtherColumnKept(base, hs, Sequence);
    OtherColumnKept(base, hs, ServiceDate);
    OtherColumnKept(base, hs, Quantity);
  }

  // ---------------------------------------------------------------------------
  // Properties of the whole extraction
  // ---------------------------------------------------------------------------

  /** Rows are processed independently and their records are concatenated in row order. */
  lemma {:induction false} ItemRecordsAppend(a: seq<Option<string>>, b: seq<Option<string>>, parse: string -> Option<Json>)
    ensures ItemRecords(a + b, parse) == ItemRecords(a, parse) + ItemRecords(b, parse)
    decreases |b|
  {
    if |b| == 0 {
      assert a + b == a;
    } else {
      var n, ab := |b| - 1, a + b;
      var last := RecordsOf(ItemsOf(b[n], parse));
      assert ab[..|ab| - 1] == a + b[..n] && ab[|ab| - 1] == b[n];
      assert ItemRecords(ab, parse) == ItemRecords(a + b[..n], parse) + last;
      assert ItemRecords(b, parse) == ItemRecords(b[..n], parse) + last;
      ItemRecordsAppend(a, b[..n], parse);
    }
  }

  /** A row whose cell is NaN or does not parse contributes no records, and the rows after it still do. */
  lemma {:induction false} UnparsedRowSkipped(a: seq<Option<string>>, cell: Option<string>, b: seq<Option<string>>,
                                              parse: string -> Option<Json>)
    requires cell.None? || parse(cell.value).None?
    ensures ItemRecords(a + [cell] + b, parse) == ItemRecords(a + b, parse)
  {
    assert [cell][..0] == [];
    assert ItemsOf(cell, parse) == [];
    assert ItemRecords([cell], parse) == [];
    ItemRecordsAppend(a, [cell], parse);
    ItemRecordsAppend(a + [cell], b, parse);
    ItemRecordsAppend(a, b, parse);
  }

  /** One record per element of each parsed array: the count is the sum over the rows. */
  lemma {:induction false} ItemRecordsCount(cells: seq<Option<string>>, parse: string -> Option<Json>, r: nat)
    requires r < |cells|
    ensures |ItemRecords(cells[..r + 1], parse)| == |ItemRecords(cells[..r], parse)| + |ItemsOf(cells[r], parse)|
  {
    ItemRecordsSnoc(cells, parse, r);
  }

  /** Every extracted record has exactly the fourteen output columns. */
  lemma {:induction false} ItemRecordsColumns(cells: seq<Option<string>>, parse: string -> Option<Json>)
    ensures forall i, c :: 0 <= i < |ItemRecords(cells, parse)| ==> (c in ItemRecords(cells, parse)[i] <==> c in ColumnOrder)
    decreases |cells|
  {
    if |cells| > 0 {
      var n := |cells| - 1;
      var items := ItemsOf(cells[n], parse);
      ItemRecordsColumns(cells[..n], parse);
      forall i | 0 <= i < |items|
        ensures forall c :: c in RecordsOf(items)[i] <==> c in ColumnOrder
      {
        RecordColumns(items[i]);
      }
    }
  }

  // ---------------------------------------------------------------------------
  // The output table
  // ---------------------------------------------------------------------------

  datatype ItemTable = ItemTable(columns: seq<string>, rows: seq<seq<Json>>)

  /** The CSV header: the names of `ColumnOrder`, which are the `column_order` list. */
  function Header(): (h: seq<string>)
    ensures h == ["sequence", "service_date", "ndc_code", "product_display", "quantity",
                  "total_drug_cost", "benefit_amount", "patient_paid", "prior_payer_paid",
                  "low_income_subsidy", "coinsurance_below_threshold",
                  "coinsurance_above_threshold", "other_troop", "gap_discount"]
  {
    seq(|ColumnOrder|, j requires 0 <= j < |ColumnOrder| => ColumnName(ColumnOrder[j]))
  }

  /** A record's value in column `c`; pandas fills a missing one with NaN, read here as `JNull`. */
  function ValueIn(rec: Record, c: Column): Json {
    if c in rec then rec[c] else JNull
  }

  function OrderedRows(records: seq<Record>): seq<seq<Json>> {
    seq(|records|, i requires 0 <= i < |records| => seq(|ColumnOrder|, j requires 0 <= j < |ColumnOrder| => ValueIn(records[i], ColumnOrder[j])))
  }

  /**
    `output_df[column_order]` as written: a frame built from no records has no
    columns at all, so the selection raises `KeyError` and nothing is written.
   */
  function OrderColumnsAsWritten(records: seq<Record>): Option<ItemTable> {
    if |records| == 0 then None else Some(ItemTable(Header(), OrderedRows(records)))
  }

  /** The column selection as intended: the fourteen columns, even when there are no records. */
  function OrderColumns(records: seq<Record>): ItemTable {
    ItemTable(Header(), OrderedRows(records))
  }

  /** A file whose only `item` cell holds an empty array yields no records, and the selection fails. */
  lemma {:induction false} EmptyArrayFailsAsWritten(parse: string -> Option<Json>)
    requires parse("[]") == Some(JArr([]))
    ensures ItemRecords([Some("[]")], parse) == []
    ensures OrderColumnsAsWritten(ItemRecords([Some("[]")], parse)).None?
  {
    var cells := [Some("[]")];
    assert cells[..0] == [];
    assert ItemsOf(cells[0], parse) == [];
  }

  /**
    The intended table: always the fourteen columns in output order, one row
    per record, and, when every record has exactly those columns, every cell
    is the record's own value (none is filled in as NaN).
   */
  lemma {:induction false} OrderedTable(records: seq<Record>)
    requires forall i, c :: 0 <= i < |records| ==> (c in records[i] <==> c in ColumnOrder)
    ensures OrderColumns(records).columns == Header()
    ensures |OrderColumns(records).rows| == |records|
    ensures forall i, j :: 0 <= i < |records| && 0 <= j < |ColumnOrder| ==>
      ColumnOrder[j] in records[i] && OrderColumns(records).rows[i][j] == records[i][ColumnOrder[j]]
  {
    forall i, j | 0 <= i < |records| && 0 <= j < |ColumnOrder|
      ensures ColumnOrder[j] in records[i] && OrderColumns(records).rows[i][j] == records[i][ColumnOrder[j]]
    {
      assert ColumnOrder[j] in ColumnOrder;
    }
  }
}
