/**
 * The indexing payload built at the start of `upload_with_restapi`: an
 * ordered list of `(FieldName, Item, ItemElementName)` entries taken from
 * the extracted record. Optional entries appear only for non-empty fields,
 * supplier values are preferred over customer values, and a fixed block of
 * status entries is always present. Converting a field with `int()`,
 * `float()` or `.upper()` can raise, which ends the upload call.
 */
module Payload {
  import opened Wrappers
  import opened XmlTree
  import opened PyText
  import Extractor

  /** The index fields of the file cabinet that the payload fills. */
  datatype FieldName =
    | Unterbelegart
    | Belegdatum
    | KstKtrBezeichnung
    | Kst
    | KuLiefName
    | KuLiefNr
    | Dateiname
    | KommisionKurzbeschreibung
    | Mandant
    | Belegnummer
    | Versandart
    | KfmStatus(k: nat)
    | Versionsstatus
    | TechnStatus
    | Created
    | Betrag

  /** The `FieldName` string sent for each field. */
  function WireName(n: FieldName): string {
    match n
    case Unterbelegart => "UNTERBELEGART"
    case Belegdatum => "BELEGDATUM"
    case KstKtrBezeichnung => "KST_KTR_BEZEICHNUNG"
    case Kst => "KST"
    case KuLiefName => "KU__LIEF_NAME"
    case KuLiefNr => "KU__LIEF_NR_"
    case Dateiname => "DATEINAME"
    case KommisionKurzbeschreibung => "KOMMISION_KURZBESCHREIBUNG"
    case Mandant => "MANDANT"
    case Belegnummer => "BELEGNUMMER"
    case Versandart => "VERSANDART"
    case KfmStatus(k) => "KFM__STATUS" + NatToString(k)
    case Versionsstatus => "VERSIONSSTATUS"
    case TechnStatus => "TECHN__STATUS"
    case Created => "CREATED"
    case Betrag => "BETRAG"
  }

  /**
   * Distinct fields are sent under distinct `FieldName` strings, so a name
   * that occurs at most once in the payload also occurs at most once on the
   * wire.
   */
  lemma WireNamesDistinct(a: FieldName, b: FieldName)
    ensures WireName(a) == WireName(b) <==> a == b
  {
    WireNameShape(a);
    WireNameShape(b);
    if WireName(a) == WireName(b) {
      if a.KfmStatus? && b.KfmStatus? {
        NatToStringValue(a.k);
        NatToStringValue(b.k);
      } else {
        // Length and the first two characters tell the other names apart.
        var wa, wb := WireName(a), WireName(b);
        assert |wa| == |wb| && wa[0] == wb[0] && wa[1] == wb[1];
      }
    }
  }

  /** Only the KFM__STATUS names have an F as second character. */
  lemma WireNameShape(n: FieldName)
    ensures |WireName(n)| >= 3
    ensures n.KfmStatus? <==> WireName(n)[1] == 'F'
    ensures n.KfmStatus? ==> WireName(n)[11..] == NatToString(n.k)
  {
  }

  /** `ItemElementName`: how the server is to read the item. */
  datatype ElementType = String | Date | Decimal | DateTime

  /**
   * An item: a record value passed through (for BETRAG the text whose
   * `float()` conversion succeeded), or the integer `int()` produced.
   */
  datatype Item = Value(v: XNode) | Number(n: int)

  datatype Field = Field(name: FieldName, item: Item, itemElementName: ElementType)

  /** The names of the entries appended unconditionally, in the order they are appended. */
  function FixedName(k: nat): FieldName
    requires k < 11
  {
    if k == 0 then Versandart
    else if k <= 8 then KfmStatus(k)
    else if k == 9 then Versionsstatus
    else TechnStatus
  }

  /** VERSANDART is "AUSGANGSPOST-PDS"; the status entries are all ".". */
  function FixedEntry(k: nat): Field
    requires k < 11
  {
    Field(FixedName(k), Value(Text(if k == 0 then "AUSGANGSPOST-PDS" else ".")), String)
  }

  const FixedBlock: seq<Field> := [
    FixedEntry(0), FixedEntry(1), FixedEntry(2), FixedEntry(3), FixedEntry(4), FixedEntry(5),
    FixedEntry(6), FixedEntry(7), FixedEntry(8), FixedEntry(9), FixedEntry(10)
  ]

  predicate IsFixed(n: FieldName) {
    n.Versandart? || (n.KfmStatus? && 1 <= n.k <= 8) || n.Versionsstatus? || n.TechnStatus?
  }

  /** `int(v)` raises: `v` is not a string (TypeError) or not an integer literal (ValueError). */
  predicate IntFails(v: XNode) {
    !v.Text? || ParseInt(v.s).None?
  }

  function IntOf(v: XNode): int
    requires !IntFails(v)
  {
    ParseInt(v.s).value
  }

  /** `.upper()` exists: a non-empty document type is a string. */
  predicate TypeConverts(d: Extractor.Record) {
    Truthy(d.dokumentTyp) ==> d.dokumentTyp.Text?
  }

  /** `int()` of a non-empty project number succeeds. */
  predicate ProjectConverts(d: Extractor.Record) {
    Truthy(d.projektnummer) ==> !IntFails(d.projektnummer)
  }

  /** `int()` of the partner number actually used (supplier if set, else customer) succeeds. */
  predicate PartnerNumberConverts(d: Extractor.Record) {
    if Truthy(d.liefNr) then !IntFails(d.liefNr)
    else Truthy(d.kundeNr) ==> !IntFails(d.kundeNr)
  }

  /** `float()` of a non-empty amount succeeds. */
  predicate AmountConverts(d: Extractor.Record) {
    Truthy(d.betrag) ==> d.betrag.Text? && IsFloatText(d.betrag.s)
  }

  predicate LeadingConverts(d: Extractor.Record) {
    TypeConverts(d) && ProjectConverts(d) && PartnerNumberConverts(d)
  }

  /** Building the payload raises: one of the conversions above fails. */
  predicate Raises(d: Extractor.Record) {
    !(LeadingConverts(d) && AmountConverts(d))
  }

  // Each step below appends to the list built so far, as the source does,
  // so that the method and its specification take the same steps.

  /** An entry appended when its record field is non-empty. */
  function Push(fs: seq<Field>, present: bool, f: Field): seq<Field> {
    if present then fs + [f] else fs
  }

  /** UNTERBELEGART: the document type in upper case. */
  function PushType(fs: seq<Field>, d: Extractor.Record): seq<Field>
    requires TypeConverts(d)
  {
    if Truthy(d.dokumentTyp) then fs + [Field(Unterbelegart, Value(Text(Upper(d.dokumentTyp.s))), String)] else fs
  }

  /** KST_KTR_BEZEICHNUNG with the project number as text, then KST with it as an integer. */
  function PushProject(fs: seq<Field>, d: Extractor.Record): seq<Field>
    requires ProjectConverts(d)
  {
    if Truthy(d.projektnummer)
    then fs + [Field(KstKtrBezeichnung, Value(d.projektnummer), String)]
            + [Field(Kst, Number(IntOf(d.projektnummer)), Decimal)]
    else fs
  }

  /** KU__LIEF_NAME: the supplier's name if set, else the customer's. */
  function PushPartnerName(fs: seq<Field>, d: Extractor.Record): seq<Field> {
    if Truthy(d.liefName) then fs + [Field(KuLiefName, Value(d.liefName), String)]
    else if Truthy(d.kundeName) then fs + [Field(KuLiefName, Value(d.kundeName), String)]
    else fs
  }

  /** KU__LIEF_NR_: the supplier's number if set, else the customer's, as an integer. */
  function PushPartnerNumber(fs: seq<Field>, d: Extractor.Record): seq<Field>
    requires PartnerNumberConverts(d)
  {
    if Truthy(d.liefNr) then fs + [Field(KuLiefNr, Number(IntOf(d.liefNr)), Decimal)]
    else if Truthy(d.kundeNr) then fs + [Field(KuLiefNr, Number(IntOf(d.kundeNr)), Decimal)]
    else fs
  }

  /** The optional entries up to the partner number: those whose conversion can raise. */
  function Converted(d: Extractor.Record): seq<Field>
    requires LeadingConverts(d)
  {
    var f1 := PushType([], d);
    var f2 := Push(f1, Truthy(d.belegdatum), Field(Belegdatum, Value(d.belegdatum), Date));
    var f3 := PushProject(f2, d);
    var f4 := PushPartnerName(f3, d);
    PushPartnerNumber(f4, d)
  }

  /** DATEINAME, KOMMISION_KURZBESCHREIBUNG, MANDANT and BELEGNUMMER, each when non-empty. */
  function PushRecordFields(fs: seq<Field>, d: Extractor.Record): seq<Field> {
    var f6 := Push(fs, Truthy(d.fileName), Field(Dateiname, Value(d.fileName), String));
    var f7 := Push(f6, Truthy(d.bemerkung), Field(KommisionKurzbeschreibung, Value(d.bemerkung), String));
    var f8 := Push(f7, Truthy(d.mandant), Field(Mandant, Value(d.mandant), String));
    Push(f8, Truthy(d.belegnummer), Field(Belegnummer, Value(d.belegnummer), String))
  }

  /** The optional entries before the fixed block. */
  function Leading(d: Extractor.Record): seq<Field>
    requires LeadingConverts(d)
  {
    PushRecordFields(Converted(d), d)
  }

  /** The fixed block appended one entry at a time. */
  function PushFixed(fs: seq<Field>): seq<Field> {
    fs + [FixedEntry(0)] + [FixedEntry(1)] + [FixedEntry(2)] + [FixedEntry(3)] + [FixedEntry(4)]
       + [FixedEntry(5)] + [FixedEntry(6)] + [FixedEntry(7)] + [FixedEntry(8)] + [FixedEntry(9)]
       + [FixedEntry(10)]
  }

  /** The `document_data["Field"]` list, or None when building it raises. */
  function PayloadSpec(d: Extractor.Record): Option<seq<Field>> {
    if Raises(d) then None
    else
      var fs := PushFixed(Leading(d));
      var fs' := Push(fs, Truthy(d.created), Field(Created, Value(d.created), DateTime));
      Some(Push(fs', Truthy(d.betrag), Field(Betrag, Value(d.betrag), Decimal)))
  }

  /** The optional entries up to the partner number, or None when a conversion raises. */
  method AppendConvertedFields(d: Extractor.Record) returns (r: Option<seq<Field>>)
    ensures r.None? <==> !LeadingConverts(d)
    ensures r.Some? ==> r.value == Converted(d)
  {
    var fields: seq<Field> := [];
    if Truthy(d.dokumentTyp) {
      if !d.dokumentTyp.Text? {
        return None;
      }
      fields := fields + [Field(Unterbelegart, Value(Text(Upper(d.dokumentTyp.s))), String)];
    }
    assert TypeConverts(d);
    assert fields == PushType([], d);
    ghost var before := fields;
    if Truthy(d.belegdatum) {
      fields := fields + [Field(Belegdatum, Value(d.belegdatum), Date)];
    }
    assert fields == Push(before, Truthy(d.belegdatum), Field(Belegdatum, Value(d.belegdatum), Date));
    before := fields;
    if Truthy(d.projektnummer) {
      fields := fields + [Field(KstKtrBezeichnung, Value(d.projektnummer), String)];
      if IntFails(d.projektnummer) {
        return None;
      }
      fields := fields + [Field(Kst, Number(IntOf(d.projektnummer)), Decimal)];
    }
    assert ProjectConverts(d);
    assert fields == PushProject(before, d);
    before := fields;
    if Truthy(d.liefName) {
      fields := fields + [Field(KuLiefName, Value(d.liefName), String)];
    } else if Truthy(d.kundeName) {
      fields := fields + [Field(KuLiefName, Value(d.kundeName), String)];
    }
    assert fields == PushPartnerName(before, d);
    before := fields;
    if Truthy(d.liefNr) {
      if IntFails(d.liefNr) {
        return None;
      }
      fields := fields + [Field(KuLiefNr, Number(IntOf(d.liefNr)), Decimal)];
    } else if Truthy(d.kundeNr) {
      if IntFails(d.kundeNr) {
        return None;
      }
      fields := fields + [Field(KuLiefNr, Number(IntOf(d.kundeNr)), Decimal)];
    }
    assert PartnerNumberConverts(d);
    assert fields == PushPartnerNumber(before, d);
    return Some(fields);
  }

  /** The payload-building half of `upload_with_restapi`, appending entry by entry. */
  method BuildDocumentData(d: Extractor.Record) returns (r: Option<seq<Field>>)
    ensures r == PayloadSpec(d)
  {
    var converted := AppendConvertedFields(d);
    if converted.None? {
      return None;
    }
    var fields := converted.value;
    ghost var before := fields;
    if Truthy(d.fileName) {
      fields := fields + [Field(Dateiname, Value(d.fileName), String)];
    }
    assert fields == Push(before, Truthy(d.fileName), Field(Dateiname, Value(d.fileName), String));
    before := fields;
    if Truthy(d.bemerkung) {
      fields := fields + [Field(KommisionKurzbeschreibung, Value(d.bemerkung), String)];
    }
    assert fields == Push(before, Truthy(d.bemerkung), Field(KommisionKurzbeschreibung, Value(d.bemerkung), String));
    before := fields;
    if Truthy(d.mandant) {
      fields := fields + [Field(Mandant, Value(d.mandant), String)];
    }
    assert fields == Push(before, Truthy(d.mandant), Field(Mandant, Value(d.mandant), String));
    before := fields;
    if Truthy(d.belegnummer) {
      fields := fields + [Field(Belegnummer, Value(d.belegnummer), String)];
    }
    assert fields == Push(before, Truthy(d.belegnummer), Field(Belegnummer, Value(d.belegnummer), String));
    assert fields == Leading(d);
    before := fields;
    fields := fields + [Field(Versandart, Value(Text("AUSGANGSPOST-PDS")), String)];
    fields := fields + [Field(KfmStatus(1), Value(Text(".")), String)];
    fields := fields + [Field(KfmStatus(2), Value(Text(".")), String)];
    fields := fields + [Field(KfmStatus(3), Value(Text(".")), String)];
    fields := fields + [Field(KfmStatus(4), Value(Text(".")), String)];
    fields := fields + [Field(KfmStatus(5), Value(Text(".")), String)];
    fields := fields + [Field(KfmStatus(6), Value(Text(".")), String)];
    fields := fields + [Field(KfmStatus(7), Value(Text(".")), String)];
    fields := fields + [Field(KfmStatus(8), Value(Text(".")), String)];
    fields := fields + [Field(Versionsstatus, Value(Text(".")), String)];
    fields := fields + [Field(TechnStatus, Value(Text(".")), String)];
    assert fields == PushFixed(before);
    before := fields;
    if Truthy(d.created) {
      fields := fields + [Field(Created, Value(d.created), DateTime)];
    }
    assert fields == Push(before, Truthy(d.created), Field(Created, Value(d.created), DateTime));
    before := fields;
    if Truthy(d.betrag) {
      if !d.betrag.Text? || !IsFloatText(d.betrag.s) {
        return None;
      }
      fields := fields + [Field(Betrag, Value(d.betrag), Decimal)];
    }
    assert fields == Push(before, Truthy(d.betrag), Field(Betrag, Value(d.betrag), Decimal));
    assert AmountConverts(d);
    return Some(fields);
  }

  // ---------------------------------------------------------------------------
  // Looking fields up
  // ---------------------------------------------------------------------------

  /** How many entries carry the name `n`. */
  function Count(fs: seq<Field>, n: FieldName): nat {
    if fs == [] then 0 else (if fs[0].name == n then 1 else 0) + Count(fs[1..], n)
  }

  /** The first entry named `n`. */
  function Find(fs: seq<Field>, n: FieldName): (r: Option<Field>)
    ensures r.Some? ==> r.value in fs && r.value.name == n
    ensures r.None? <==> Count(fs, n) == 0
  {
    if fs == [] then None else if fs[0].name == n then Some(fs[0]) else Find(fs[1..], n)
  }

  /** The position of the first entry named `n`, or `|fs|`. */
  function IndexOf(fs: seq<Field>, n: FieldName): (k: nat)
    ensures k <= |fs|
    ensures k < |fs| ==> fs[k].name == n
    ensures k == |fs| <==> Count(fs, n) == 0
  {
    if fs == [] then 0 else if fs[0].name == n then 0 else 1 + IndexOf(fs[1..], n)
  }

  lemma {:induction false} CountAppend(a: seq<Field>, b: seq<Field>, n: FieldName)
    ensures Count(a + b, n) == Count(a, n) + Count(b, n)
    ensures Find(a + b, n) == if Find(a, n).Some? then Find(a, n) else Find(b, n)
    ensures Count(a, n) == 0 ==> IndexOf(a + b, n) == |a| + IndexOf(b, n)
    decreases |a|
  {
    if a == [] {
      assert a + b == b;
    } else {
      assert (a + b)[0] == a[0] && (a + b)[1..] == a[1..] + b;
      CountAppend(a[1..], b, n);
    }
  }

  /** Counting and finding over concatenations and one- or two-entry lists. */
  lemma CountFacts()
    ensures forall a: seq<Field>, b: seq<Field>, n: FieldName {:trigger Count(a + b, n)} ::
              Count(a + b, n) == Count(a, n) + Count(b, n)
    ensures forall a: seq<Field>, b: seq<Field>, n: FieldName {:trigger Find(a + b, n)} ::
              Find(a + b, n) == if Find(a, n).Some? then Find(a, n) else Find(b, n)
    ensures forall a: seq<Field>, b: seq<Field>, n: FieldName {:trigger IndexOf(a + b, n)} ::
              Count(a, n) == 0 ==> IndexOf(a + b, n) == |a| + IndexOf(b, n)
    ensures forall f: Field, n: FieldName {:trigger Count([f], n)} ::
              Count([f], n) == if f.name == n then 1 else 0
    ensures forall f: Field, n: FieldName {:trigger Find([f], n)} ::
              Find([f], n) == if f.name == n then Some(f) else None
    ensures forall f: Field, g: Field, n: FieldName {:trigger Count([f, g], n)} ::
              Count([f, g], n) == (if f.name == n then 1 else 0) + (if g.name == n then 1 else 0)
  {
    forall a: seq<Field>, b: seq<Field>, n: FieldName {
      CountAppend(a, b, n);
    }
    forall f: Field, n: FieldName
      ensures Count([f], n) == if f.name == n then 1 else 0
      ensures Find([f], n) == if f.name == n then Some(f) else None
    {
      assert [f][1..] == [];
    }
    forall f: Field, g: Field, n: FieldName
      ensures Count([f, g], n) == (if f.name == n then 1 else 0) + (if g.name == n then 1 else 0)
    {
      assert [f, g] == [f] + [g];
      CountAppend([f], [g], n);
      assert [f][1..] == [] && [g][1..] == [];
    }
  }

  /** In a list of distinct names, each name occurs once, at its own position. */
  lemma {:induction false} CountDistinct(fs: seq<Field>, i: nat)
    requires i < |fs|
    requires forall a, b :: 0 <= a < b < |fs| ==> fs[a].name != fs[b].name
    ensures Count(fs, fs[i].name) == 1 && IndexOf(fs, fs[i].name) == i
    decreases |fs|
  {
    if i == 0 {
      CountAbsent(fs[1..], fs[0].name);
    } else {
      CountDistinct(fs[1..], i - 1);
    }
  }

  lemma {:induction false} CountAbsent(fs: seq<Field>, n: FieldName)
    requires forall a :: 0 <= a < |fs| ==> fs[a].name != n
    ensures Count(fs, n) == 0
    decreases |fs|
  {
    if fs != [] {
      CountAbsent(fs[1..], n);
    }
  }

  /** Each fixed name occurs exactly once in the fixed block, at its own position; no other name occurs. */
  lemma FixedBlockCounts(n: FieldName)
    ensures Count(FixedBlock, n) == if IsFixed(n) then 1 else 0
    ensures IsFixed(n) ==> IndexOf(FixedBlock, n) < |FixedBlock| && FixedBlock[IndexOf(FixedBlock, n)].name == n
  {
    forall a, b | 0 <= a < b < |FixedBlock|
      ensures FixedBlock[a].name != FixedBlock[b].name
    {
    }
    if IsFixed(n) {
      var k: nat := if n.Versandart? then 0 else if n.KfmStatus? then n.k else if n.Versionsstatus? then 9 else 10;
      assert FixedBlock[k].name == n;
      CountDistinct(FixedBlock, k);
    } else {
      CountAbsent(FixedBlock, n);
    }
  }

  // ---------------------------------------------------------------------------
  // Properties of the payload
  // ---------------------------------------------------------------------------

  /** The entries after the fixed block. */
  function Trailing(d: Extractor.Record): seq<Field> {
    Push(Push([], Truthy(d.created), Field(Created, Value(d.created), DateTime)),
         Truthy(d.betrag), Field(Betrag, Value(d.betrag), Decimal))
  }

  lemma PushFixedAppendsBlock(fs: seq<Field>)
    ensures PushFixed(fs) == fs + FixedBlock
  {
  }

  lemma PushTrailing(fs: seq<Field>, d: Extractor.Record)
    ensures Push(Push(fs, Truthy(d.created), Field(Created, Value(d.created), DateTime)),
                 Truthy(d.betrag), Field(Betrag, Value(d.betrag), Decimal))
            == fs + Trailing(d)
  {
    var c := Field(Created, Value(d.created), DateTime);
    var b := Field(Betrag, Value(d.betrag), Decimal);
    if Truthy(d.created) && Truthy(d.betrag) {
      assert fs + [c] + [b] == fs + ([] + [c] + [b]);
    } else if Truthy(d.created) {
      assert fs + [c] == fs + ([] + [c]);
    } else if Truthy(d.betrag) {
      assert fs + [b] == fs + ([] + [b]);
    } else {
      assert fs == fs + [];
    }
  }

  /** The payload is the optional leading entries, the fixed block, then CREATED and BETRAG. */
  lemma PayloadShape(d: Extractor.Record)
    requires !Raises(d)
    ensures PayloadSpec(d).value == Leading(d) + FixedBlock + Trailing(d)
  {
    var lead := Leading(d);
    PushFixedAppendsBlock(lead);
    PushTrailing(lead + FixedBlock, d);
  }

  function Indicator(b: bool): nat {
    if b then 1 else 0
  }

  /**
   * How many entries of each name the payload should hold: one per
   * non-empty source field (the partner name and number when either the
   * supplier or the customer value is set, both project entries when the
   * project number is set), exactly one of each fixed entry, none otherwise.
   */
  function Expected(d: Extractor.Record, n: FieldName): nat {
    match n
    case Unterbelegart => Indicator(Truthy(d.dokumentTyp))
    case Belegdatum => Indicator(Truthy(d.belegdatum))
    case KstKtrBezeichnung => Indicator(Truthy(d.projektnummer))
    case Kst => Indicator(Truthy(d.projektnummer))
    case KuLiefName => Indicator(Truthy(d.liefName) || Truthy(d.kundeName))
    case KuLiefNr => Indicator(Truthy(d.liefNr) || Truthy(d.kundeNr))
    case Dateiname => Indicator(Truthy(d.fileName))
    case KommisionKurzbeschreibung => Indicator(Truthy(d.bemerkung))
    case Mandant => Indicator(Truthy(d.mandant))
    case Belegnummer => Indicator(Truthy(d.belegnummer))
    case Created => Indicator(Truthy(d.created))
    case Betrag => Indicator(Truthy(d.betrag))
    case _ => Indicator(IsFixed(n))
  }

  lemma CountPush(fs: seq<Field>, present: bool, f: Field, n: FieldName)
    ensures Count(Push(fs, present, f), n) == Count(fs, n) + Indicator(present && f.name == n)
  {
    if present {
      CountAppend(fs, [f], n);
      assert [f][1..] == [];
    }
  }

  lemma CountPushType(fs: seq<Field>, d: Extractor.Record, n: FieldName)
    requires TypeConverts(d)
    ensures Count(PushType(fs, d), n) == Count(fs, n) + Indicator(n.Unterbelegart? && Truthy(d.dokumentTyp))
  {
    CountPush(fs, Truthy(d.dokumentTyp), Field(Unterbelegart, Value(Text(if d.dokumentTyp.Text? then Upper(d.dokumentTyp.s) else "")), String), n);
  }

  lemma CountPushProject(fs: seq<Field>, d: Extractor.Record, n: FieldName)
    requires ProjectConverts(d)
    ensures Count(PushProject(fs, d), n)
            == Count(fs, n) + Indicator((n.KstKtrBezeichnung? || n.Kst?) && Truthy(d.projektnummer))
  {
    if Truthy(d.projektnummer) {
      var a := Field(KstKtrBezeichnung, Value(d.projektnummer), String);
      CountPush(fs, true, a, n);
      CountPush(fs + [a], true, Field(Kst, Number(IntOf(d.projektnummer)), Decimal), n);
    }
  }

  lemma CountPushPartnerName(fs: seq<Field>, d: Extractor.Record, n: FieldName)
    ensures Count(PushPartnerName(fs, d), n)
            == Count(fs, n) + Indicator(n.KuLiefName? && (Truthy(d.liefName) || Truthy(d.kundeName)))
  {
    if Truthy(d.liefName) {
      CountPush(fs, true, Field(KuLiefName, Value(d.liefName), String), n);
    } else {
      CountPush(fs, Truthy(d.kundeName), Field(KuLiefName, Value(d.kundeName), String), n);
    }
  }

  lemma CountPushPartnerNumber(fs: seq<Field>, d: Extractor.Record, n: FieldName)
    requires PartnerNumberConverts(d)
    ensures Count(PushPartnerNumber(fs, d), n)
            == Count(fs, n) + Indicator(n.KuLiefNr? && (Truthy(d.liefNr) || Truthy(d.kundeNr)))
  {
    if Truthy(d.liefNr) {
      CountPush(fs, true, Field(KuLiefNr, Number(IntOf(d.liefNr)), Decimal), n);
    } else if Truthy(d.kundeNr) {
      CountPush(fs, true, Field(KuLiefNr, Number(IntOf(d.kundeNr)), Decimal), n);
    }
  }

  lemma ConvertedCount(d: Extractor.Record, n: FieldName)
    requires LeadingConverts(d)
    ensures Count(Converted(d), n) ==
      Indicator(n.Unterbelegart? && Truthy(d.dokumentTyp))
      + Indicator(n.Belegdatum? && Truthy(d.belegdatum))
      + Indicator((n.KstKtrBezeichnung? || n.Kst?) && Truthy(d.projektnummer))
      + Indicator(n.KuLiefName? && (Truthy(d.liefName) || Truthy(d.kundeName)))
      + Indicator(n.KuLiefNr? && (Truthy(d.liefNr) || Truthy(d.kundeNr)))
  {
    var f1 := PushType([], d);
    var f2 := Push(f1, Truthy(d.belegdatum), Field(Belegdatum, Value(d.belegdatum), Date));
    var f3 := PushProject(f2, d);
    var f4 := PushPartnerName(f3, d);
    CountPushType([], d, n);
    CountPush(f1, Truthy(d.belegdatum), Field(Belegdatum, Value(d.belegdatum), Date), n);
    CountPushProject(f2, d, n);
    CountPushPartnerName(f3, d, n);
    CountPushPartnerNumber(f4, d, n);
  }

  lemma CountPushRecordFields(fs: seq<Field>, d: Extractor.Record, n: FieldName)
    ensures Count(PushRecordFields(fs, d), n) == Count(fs, n)
      + Indicator(n.Dateiname? && Truthy(d.fileName))
      + Indicator(n.KommisionKurzbeschreibung? && Truthy(d.bemerkung))
      + Indicator(n.Mandant? && Truthy(d.mandant))
      + Indicator(n.Belegnummer? && Truthy(d.belegnummer))
  {
    var f6 := Push(fs, Truthy(d.fileName), Field(Dateiname, Value(d.fileName), String));
    var f7 := Push(f6, Truthy(d.bemerkung), Field(KommisionKurzbeschreibung, Value(d.bemerkung), String));
    var f8 := Push(f7, Truthy(d.mandant), Field(Mandant, Value(d.mandant), String));
    CountPush(fs, Truthy(d.fileName), Field(Dateiname, Value(d.fileName), String), n);
    CountPush(f6, Truthy(d.bemerkung), Field(KommisionKurzbeschreibung, Value(d.bemerkung), String), n);
    CountPush(f7, Truthy(d.mandant), Field(Mandant, Value(d.mandant), String), n);
    CountPush(f8, Truthy(d.belegnummer), Field(Belegnummer, Value(d.belegnummer), String), n);
  }

  /** The leading entries hold the expected number of each optional name and no fixed one. */
  lemma LeadingCount(d: Extractor.Record, n: FieldName)
    requires LeadingConverts(d)
    ensures Count(Leading(d), n) == if IsFixed(n) || n.Created? || n.Betrag? then 0 else Expected(d, n)
  {
    ConvertedCount(d, n);
    CountPushRecordFields(Converted(d), d, n);
    LeadingIndicators(d, n);
  }

  lemma LeadingIndicators(d: Extractor.Record, n: FieldName)
    ensures Indicator(n.Unterbelegart? && Truthy(d.dokumentTyp))
      + Indicator(n.Belegdatum? && Truthy(d.belegdatum))
      + Indicator((n.KstKtrBezeichnung? || n.Kst?) && Truthy(d.projektnummer))
      + Indicator(n.KuLiefName? && (Truthy(d.liefName) || Truthy(d.kundeName)))
      + Indicator(n.KuLiefNr? && (Truthy(d.liefNr) || Truthy(d.kundeNr)))
      + Indicator(n.Dateiname? && Truthy(d.fileName))
      + Indicator(n.KommisionKurzbeschreibung? && Truthy(d.bemerkung))
      + Indicator(n.Mandant? && Truthy(d.mandant))
      + Indicator(n.Belegnummer? && Truthy(d.belegnummer))
      == if IsFixed(n) || n.Created? || n.Betrag? then 0 else Expected(d, n)
  {
  }

  lemma TrailingCount(d: Extractor.Record, n: FieldName)
    ensures Count(Trailing(d), n)
            == Indicator(n.Created? && Truthy(d.created)) + Indicator(n.Betrag? && Truthy(d.betrag))
  {
    var c := Field(Created, Value(d.created), DateTime);
    CountPush([], Truthy(d.created), c, n);
    CountPush(Push([], Truthy(d.created), c), Truthy(d.betrag), Field(Betrag, Value(d.betrag), Decimal), n);
  }

  lemma CountOfShape(lead: seq<Field>, tail: seq<Field>, n: FieldName)
    ensures Count(lead + FixedBlock + tail, n) == Count(lead, n) + Count(FixedBlock, n) + Count(tail, n)
  {
    CountAppend(lead + FixedBlock, tail, n);
    CountAppend(lead, FixedBlock, n);
  }

  lemma ExpectedSplits(d: Extractor.Record, n: FieldName)
    ensures Expected(d, n)
            == (if IsFixed(n) || n.Created? || n.Betrag? then 0 else Expected(d, n))
               + Indicator(IsFixed(n))
               + Indicator(n.Created? && Truthy(d.created)) + Indicator(n.Betrag? && Truthy(d.betrag))
  {
  }

  /**
   * Optional entries appear exactly when their source field is non-empty,
   * the partner name and number at most once each, and every fixed entry
   * exactly once.
   */
  lemma EntryCounts(d: Extractor.Record, n: FieldName)
    requires !Raises(d)
    ensures Count(PayloadSpec(d).value, n) == Expected(d, n)
  {
    var lead := Leading(d);
    var tail := Trailing(d);
    PayloadShape(d);
    CountOfShape(lead, tail, n);
    LeadingCount(d, n);
    FixedBlockCounts(n);
    TrailingCount(d, n);
    ExpectedSplits(d, n);
  }

  lemma {:induction false} CountZero(fs: seq<Field>, n: FieldName)
    requires Count(fs, n) == 0
    ensures forall i :: 0 <= i < |fs| ==> fs[i].name != n
    decreases |fs|
  {
    if fs != [] {
      CountZero(fs[1..], n);
      assert forall i :: 1 <= i < |fs| ==> fs[i] == fs[1..][i - 1];
    }
  }

  lemma TrailingNames(d: Extractor.Record)
    ensures forall i :: 0 <= i < |Trailing(d)| ==> Trailing(d)[i].name == Created || Trailing(d)[i].name == Betrag
  {
    var c := Field(Created, Value(d.created), DateTime);
    var b := Field(Betrag, Value(d.betrag), Decimal);
    var t := Trailing(d);
    assert t == [c] + [b] || t == [c] || t == [b] || t == [];
  }

  /** Any list of the payload's shape has its fixed block at the first VERSANDART. */
  lemma ShapeOrder(lead: seq<Field>, tail: seq<Field>)
    requires forall i :: 0 <= i < |lead| ==> !IsFixed(lead[i].name)
    ensures var fs := lead + FixedBlock + tail;
            var k := IndexOf(fs, Versandart);
            && k == |lead|
            && fs[..k] == lead
            && fs[k..k + |FixedBlock|] == FixedBlock
            && fs[k + |FixedBlock|..] == tail
  {
    CountAbsent(lead, Versandart);
    BlockAfterLead(lead, FixedBlock, tail, Versandart);
  }

  /** A block opening with the first entry of a name absent before it is found right after the entries before it. */
  lemma BlockAfterLead(lead: seq<Field>, block: seq<Field>, tail: seq<Field>, n: FieldName)
    requires block != [] && block[0].name == n && Count(lead, n) == 0
    ensures var fs := lead + block + tail;
            var k := IndexOf(fs, n);
            && k == |lead|
            && fs[..k] == lead
            && fs[k..k + |block|] == block
            && fs[k + |block|..] == tail
  {
    assert lead + block + tail == lead + (block + tail);
    CountAppend(lead, block + tail, n);
  }

  lemma LeadingHasNoFixedEntry(d: Extractor.Record)
    requires LeadingConverts(d)
    ensures forall i :: 0 <= i < |Leading(d)| ==> !IsFixed(Leading(d)[i].name)
  {
    var lead := Leading(d);
    forall i | 0 <= i < |lead|
      ensures !IsFixed(lead[i].name)
    {
      var n := lead[i].name;
      if IsFixed(n) {
        LeadingCount(d, n);
        CountZero(lead, n);
        assert false;
      }
    }
  }

  /**
   * The fixed block sits in one piece, in its fixed order, after all the
   * optional leading entries; only CREATED and BETRAG can follow it.
   */
  lemma FixedBlockInOrder(d: Extractor.Record)
    requires !Raises(d)
    ensures var fs := PayloadSpec(d).value;
            var k := IndexOf(fs, Versandart);
            && k + |FixedBlock| <= |fs|
            && fs[k..k + |FixedBlock|] == FixedBlock
            && (forall i :: 0 <= i < k ==> !IsFixed(fs[i].name))
            && (forall i :: k + |FixedBlock| <= i < |fs| ==> fs[i].name == Created || fs[i].name == Betrag)
  {
    var lead := Leading(d);
    var tail := Trailing(d);
    PayloadShape(d);
    LeadingHasNoFixedEntry(d);
    TrailingNames(d);
    OrderOfShape(lead, tail, PayloadSpec(d).value);
  }

  /** The ordering of any list made of non-fixed entries, the fixed block and CREATED/BETRAG entries. */
  lemma OrderOfShape(lead: seq<Field>, tail: seq<Field>, fs: seq<Field>)
    requires fs == lead + FixedBlock + tail
    requires forall i :: 0 <= i < |lead| ==> !IsFixed(lead[i].name)
    requires forall i :: 0 <= i < |tail| ==> tail[i].name == Created || tail[i].name == Betrag
    ensures var k := IndexOf(fs, Versandart);
            && k + |FixedBlock| <= |fs|
            && fs[k..k + |FixedBlock|] == FixedBlock
            && (forall i :: 0 <= i < k ==> !IsFixed(fs[i].name))
            && (forall i :: k + |FixedBlock| <= i < |fs| ==> fs[i].name == Created || fs[i].name == Betrag)
  {
    ShapeOrder(lead, tail);
    PartsByIndex(lead, FixedBlock, tail, fs);
  }

  /** Each element of `lead + block + tail` is the element of its part. */
  lemma PartsByIndex<T>(lead: seq<T>, block: seq<T>, tail: seq<T>, fs: seq<T>)
    requires fs == lead + block + tail
    ensures forall i :: 0 <= i < |lead| ==> fs[i] == lead[i]
    ensures forall i :: |lead| + |block| <= i < |fs| ==> fs[i] == tail[i - |lead| - |block|]
  {
  }

  // ---------------------------------------------------------------------------
  // The entry of each name
  // ---------------------------------------------------------------------------

  function Optional(present: bool, f: Field): Option<Field> {
    if present then Some(f) else None
  }

  /**
   * The entry the payload holds for each name, looked up by name rather than
   * built in order: the record's value for the optional fields (the type in
   * upper case, the project and partner numbers as integers, the supplier in
   * preference to the customer), the constant of each fixed entry.
   */
  function Entry(d: Extractor.Record, n: FieldName): Option<Field>
    requires LeadingConverts(d)
  {
    match n
    case Unterbelegart =>
      if Truthy(d.dokumentTyp) then Some(Field(Unterbelegart, Value(Text(Upper(d.dokumentTyp.s))), String)) else None
    case Belegdatum => Optional(Truthy(d.belegdatum), Field(Belegdatum, Value(d.belegdatum), Date))
    case KstKtrBezeichnung => Optional(Truthy(d.projektnummer), Field(KstKtrBezeichnung, Value(d.projektnummer), String))
    case Kst =>
      if Truthy(d.projektnummer) then Some(Field(Kst, Number(IntOf(d.projektnummer)), Decimal)) else None
    case KuLiefName =>
      if Truthy(d.liefName) then Some(Field(KuLiefName, Value(d.liefName), String))
      else Optional(Truthy(d.kundeName), Field(KuLiefName, Value(d.kundeName), String))
    case KuLiefNr =>
      if Truthy(d.liefNr) then Some(Field(KuLiefNr, Number(IntOf(d.liefNr)), Decimal))
      else if Truthy(d.kundeNr) then Some(Field(KuLiefNr, Number(IntOf(d.kundeNr)), Decimal))
      else None
    case Dateiname => Optional(Truthy(d.fileName), Field(Dateiname, Value(d.fileName), String))
    case KommisionKurzbeschreibung =>
      Optional(Truthy(d.bemerkung), Field(KommisionKurzbeschreibung, Value(d.bemerkung), String))
    case Mandant => Optional(Truthy(d.mandant), Field(Mandant, Value(d.mandant), String))
    case Belegnummer => Optional(Truthy(d.belegnummer), Field(Belegnummer, Value(d.belegnummer), String))
    case Versandart => Some(FixedEntry(0))
    case KfmStatus(k) => if 1 <= k <= 8 then Some(FixedEntry(k)) else None
    case Versionsstatus => Some(FixedEntry(9))
    case TechnStatus => Some(FixedEntry(10))
    case Created => Optional(Truthy(d.created), Field(Created, Value(d.created), DateTime))
    case Betrag => Optional(Truthy(d.betrag), Field(Betrag, Value(d.betrag), Decimal))
  }

  lemma EntryAgreesWithExpected(d: Extractor.Record, n: FieldName)
    requires LeadingConverts(d)
    ensures Entry(d, n).Some? <==> Expected(d, n) == 1
    ensures Entry(d, n).None? <==> Expected(d, n) == 0
    ensures Entry(d, n).Some? ==> Entry(d, n).value.name == n
  {
  }

  lemma {:induction false} InCount(fs: seq<Field>, f: Field)
    requires f in fs
    ensures Count(fs, f.name) >= 1
    decreases |fs|
  {
    if fs[0] != f {
      assert f in fs[1..];
      InCount(fs[1..], f);
    }
  }

  /** The only entry of its name is the one found. */
  lemma {:induction false} UniqueFind(fs: seq<Field>, f: Field)
    requires f in fs && Count(fs, f.name) == 1
    ensures Find(fs, f.name) == Some(f)
    decreases |fs|
  {
    if fs[0] != f {
      assert f in fs[1..];
      InCount(fs[1..], f);
      UniqueFind(fs[1..], f);
    }
  }

  /** Every later step keeps the entries appended before it. */
  lemma StepsKeep(fs: seq<Field>, d: Extractor.Record, f: Field)
    requires LeadingConverts(d)
    requires f in fs
    ensures f in PushProject(fs, d) && f in PushPartnerName(fs, d) && f in PushPartnerNumber(fs, d)
  {
  }

  lemma RecordFieldsKeep(fs: seq<Field>, d: Extractor.Record, f: Field)
    requires f in fs
    ensures f in PushRecordFields(fs, d)
  {
    var f6 := Push(fs, Truthy(d.fileName), Field(Dateiname, Value(d.fileName), String));
    var f7 := Push(f6, Truthy(d.bemerkung), Field(KommisionKurzbeschreibung, Value(d.bemerkung), String));
    var f8 := Push(f7, Truthy(d.mandant), Field(Mandant, Value(d.mandant), String));
    assert f in f6;
    assert f in f7;
    assert f in f8;
  }

  lemma EntryInConverted(d: Extractor.Record, n: FieldName)
    requires LeadingConverts(d)
    requires n.Unterbelegart? || n.Belegdatum? || n.KstKtrBezeichnung? || n.Kst? || n.KuLiefName? || n.KuLiefNr?
    requires Entry(d, n).Some?
    ensures Entry(d, n).value in Converted(d)
  {
    var e := Entry(d, n).value;
    var f1 := PushType([], d);
    var f2 := Push(f1, Truthy(d.belegdatum), Field(Belegdatum, Value(d.belegdatum), Date));
    var f3 := PushProject(f2, d);
    var f4 := PushPartnerName(f3, d);
    assert Converted(d) == PushPartnerNumber(f4, d);
    if n.Unterbelegart? || n.Belegdatum? {
      assert e in f2;
      StepsKeep(f2, d, e);
      StepsKeep(f3, d, e);
      StepsKeep(f4, d, e);
    } else if n.KstKtrBezeichnung? || n.Kst? {
      assert e in f3;
      StepsKeep(f3, d, e);
      StepsKeep(f4, d, e);
    } else if n.KuLiefName? {
      assert e in f4;
      StepsKeep(f4, d, e);
    }
  }

  lemma EntryInLeading(d: Extractor.Record, n: FieldName)
    requires LeadingConverts(d)
    requires !IsFixed(n) && !n.Created? && !n.Betrag?
    requires Entry(d, n).Some?
    ensures Entry(d, n).value in Leading(d)
  {
    if n.Unterbelegart? || n.Belegdatum? || n.KstKtrBezeichnung? || n.Kst? || n.KuLiefName? || n.KuLiefNr? {
      EntryInConverted(d, n);
      RecordFieldsKeep(Converted(d), d, Entry(d, n).value);
    }
  }

  lemma FixedEntryInBlock(d: Extractor.Record, n: FieldName)
    requires LeadingConverts(d)
    requires IsFixed(n)
    ensures Entry(d, n).Some? && Entry(d, n).value in FixedBlock
  {
    var k: nat := if n.Versandart? then 0 else if n.KfmStatus? then n.k else if n.Versionsstatus? then 9 else 10;
    assert Entry(d, n).value == FixedBlock[k];
  }

  lemma EntryInPayload(d: Extractor.Record, n: FieldName)
    requires !Raises(d)
    requires Entry(d, n).Some?
    ensures Entry(d, n).value in PayloadSpec(d).value
  {
    var e := Entry(d, n).value;
    PayloadShape(d);
    if IsFixed(n) {
      FixedEntryInBlock(d, n);
    } else if n.Created? || n.Betrag? {
      assert e in Trailing(d);
    } else {
      EntryInLeading(d, n);
    }
  }

  /**
   * Looking a name up in the payload yields the entry defined for it by
   * name: each field is carried with its record value and element type,
   * the partner entries take the supplier's values when set, the numbers
   * are the integers `int()` read, and each fixed entry has its constant.
   */
  lemma EntryLookup(d: Extractor.Record, n: FieldName)
    requires !Raises(d)
    ensures Find(PayloadSpec(d).value, n) == Entry(d, n)
  {
    EntryCounts(d, n);
    EntryAgreesWithExpected(d, n);
    if Entry(d, n).Some? {
      EntryInPayload(d, n);
      UniqueFind(PayloadSpec(d).value, Entry(d, n).value);
    }
  }

  /** The document type is sent upper-cased, with its length kept. */
  lemma DocumentTypeInUpperCase(d: Extractor.Record)
    requires !Raises(d)
    ensures Truthy(d.dokumentTyp) <==> Find(PayloadSpec(d).value, Unterbelegart).Some?
    ensures Truthy(d.dokumentTyp) ==>
              var t := Find(PayloadSpec(d).value, Unterbelegart).value.item;
              && t.Value? && t.v.Text? && t.v.s == Upper(d.dokumentTyp.s) && |t.v.s| == |d.dokumentTyp.s|
              && (forall i :: 0 <= i < |t.v.s| ==> !('a' <= t.v.s[i] <= 'z'))
              && Upper(t.v.s) == t.v.s
  {
    EntryLookup(d, Unterbelegart);
    if Truthy(d.dokumentTyp) {
      UpperCases(d.dokumentTyp.s);
    }
  }

  /**
   * A project number is sent twice: as its text under KST_KTR_BEZEICHNUNG
   * and, under KST, as the integer `int()` reads from it.
   */
  lemma ProjectNumberSentTwice(d: Extractor.Record, t: string, m: int)
    requires !Raises(d)
    requires d.projektnummer == Text(t)
    requires ParseInt(t) == Some(m)
    ensures Find(PayloadSpec(d).value, KstKtrBezeichnung) == Some(Field(KstKtrBezeichnung, Value(Text(t)), String))
    ensures Find(PayloadSpec(d).value, Kst) == Some(Field(Kst, Number(m), Decimal))
  {
    assert t != [];
    assert Entry(d, KstKtrBezeichnung) == Some(Field(KstKtrBezeichnung, Value(Text(t)), String));
    assert Entry(d, Kst) == Some(Field(Kst, Number(m), Decimal));
    EntryLookup(d, KstKtrBezeichnung);
    EntryLookup(d, Kst);
  }

  /**
   * A record read from a metadata file always has a MANDANT entry, "Wegra"
   * or "EAW", whenever its payload can be built.
   */
  lemma ExtractedRecordsCarryMandant(file: string, parsed: Option<map<string, XNode>>)
    requires Extractor.ExtractSpec(file, parsed).Extracted?
    requires !Raises(Extractor.ExtractSpec(file, parsed).record)
    ensures var r := Extractor.ExtractSpec(file, parsed).record;
            var dok := parsed.value["Dokument"].entries;
            var m := if Get(dok, "Erfassungspartition_dbid", Extractor.Empty) == Text("1801") then "Wegra" else "EAW";
            Find(PayloadSpec(r).value, Mandant) == Some(Field(Mandant, Value(Text(m)), String))
  {
    var r := Extractor.ExtractSpec(file, parsed).record;
    var dok := parsed.value["Dokument"].entries;
    var m := if Get(dok, "Erfassungspartition_dbid", Extractor.Empty) == Text("1801") then "Wegra" else "EAW";
    assert r.mandant == Text(m) by {
      Extractor.ExtractedRecordHeader(file, parsed);
    }
    MandantIsSent(r, m);
  }

  /** A non-empty MANDANT text is sent as a string entry. */
  lemma MandantIsSent(d: Extractor.Record, m: string)
    requires !Raises(d)
    requires d.mandant == Text(m) && m != ""
    ensures Find(PayloadSpec(d).value, Mandant) == Some(Field(Mandant, Value(Text(m)), String))
  {
    assert Entry(d, Mandant) == Some(Field(Mandant, Value(Text(m)), String));
    EntryLookup(d, Mandant);
  }
}
