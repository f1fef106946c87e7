/**
 * The metadata extractor `get_data_from_xml`: a parsed metadata document
 * becomes a flat record of business fields. Every field starts out empty;
 * the header fields are read from the `Dokument` element, `Mandant` is
 * looked up from the capture partition, and the `Vorgang` sections are
 * scanned in order, each overwriting the running customer, date and project
 * values; an exception inside the scan ends it but keeps what was gathered.
 */
module Extractor {
  import opened Wrappers
  import opened XmlTree
  import IsoDate

  /** The record (`data` dict) built for one metadata file. */
  datatype Record = Record(
    originalFileName: string,
    dokumentId: XNode,
    belegnummer: XNode,
    fileName: XNode,
    mandant: XNode,
    dokumentTyp: XNode,
    bemerkung: XNode,
    betrag: XNode,
    created: XNode,
    kundeNr: XNode,
    kundeName: XNode,
    liefNr: XNode,
    liefName: XNode,
    belegdatum: XNode,
    projektnummer: XNode,
    status: string)

  const Empty: XNode := Text("")

  /** The initial dict: every key present and empty, `OriginalFileName` set, no `status` yet. */
  function Defaults(file: string): Record {
    Record(file, Empty, Empty, Empty, Empty, Empty, Empty, Empty, Empty,
           Empty, Empty, Empty, Empty, Empty, Empty, "")
  }

  const InvoiceType: XNode := Text("Eingangsrechnung")
  const InvoiceSectionType: XNode := Text("EingangsRechnungImpl")

  /** The business unit of a capture partition: "1801" is Wegra, every other partition is EAW. */
  function MandantFor(partition: XNode): (m: XNode)
    ensures m == Text("Wegra") <==> partition == Text("1801")
    ensures m == Text("EAW") <==> partition != Text("1801")
  {
    if partition == Text("1801") then Text("Wegra") else Text("EAW")
  }

  /** The running date after `remove_timezone_offset` returned normally. */
  function NodeOf(n: IsoDate.Normalized): XNode
    requires !n.Raises?
  {
    if n.DateText? then Text(n.text) else Null
  }

  /** The sections `xml_dict["Dokument"]["Vorgang"]` iterates over; without a list nothing is scanned. */
  function Sections(dok: map<string, XNode>): seq<XNode> {
    if "Vorgang" in dok && dok["Vorgang"].List? then dok["Vorgang"].items else []
  }

  /** The record after one loop iteration, and whether the loop goes on (false: an exception ended it). */
  datatype Step = Step(record: Record, goOn: bool)

  /** Does this section take the supplier branch of an incoming invoice? */
  predicate IsInvoiceSection(dokumentTyp: XNode, section: XNode) {
    && dokumentTyp == InvoiceType
    && section.Dict? && "Vorgangstyp" in section.entries
    && section.entries["Vorgangstyp"] == InvoiceSectionType
  }

  /**
   * The customer lookup at the head of an iteration: it fails silently
   * (leaving the record as it was) unless the section holds a
   * `Geschaeftspartner` dict; `Kundennummer` is preferred to
   * `Lieferantennummer`.
   */
  function TakeCustomer(d: Record, section: XNode): Record {
    if HasDictAt(section, "Geschaeftspartner") then
      var gp := section.entries["Geschaeftspartner"].entries;
      d.(kundeNr := Get(gp, "Kundennummer", Get(gp, "Lieferantennummer", d.kundeNr)),
         kundeName := Get(gp, "Name", d.kundeName))
    else d
  }

  /**
   * The document-type branch of an iteration: on an incoming invoice a
   * section without `Vorgangstyp`, or an `EingangsRechnungImpl` section
   * without a partner dict, ends the scan; an `EingangsRechnungImpl` section
   * sets the supplier, re-reads and re-normalises the date and resets the
   * project number.
   */
  function TakeSupplier(d: Record, section: XNode): Step
    requires section.Dict?
  {
    var sec := section.entries;
    if d.dokumentTyp != InvoiceType then Step(d, true)
    else if "Vorgangstyp" !in sec then Step(d, false)
    else if sec["Vorgangstyp"] != InvoiceSectionType then Step(d, true)
    else if !HasDictAt(section, "Geschaeftspartner") then Step(d, false)
    else
      var gp := sec["Geschaeftspartner"].entries;
      var d1 := d.(liefNr := Get(gp, "Lieferantennummer", d.liefNr),
                   liefName := Get(gp, "Name", d.liefName),
                   belegdatum := Get(sec, "Belegdatum", d.belegdatum));
      var n := IsoDate.RemoveTimezoneOffset(d1.belegdatum);
      if n.Raises? then Step(d1, false)
      else Step(d1.(belegdatum := NodeOf(n), projektnummer := Get(sec, "Projektnummer", Empty)), true)
  }

  /**
   * One iteration of the section loop. After the customer lookup, every
   * failure (a section that is not a dict, a date that makes the normaliser
   * raise, a failure in the document-type branch) ends the scan.
   */
  function ScanSection(d: Record, section: XNode): Step {
    var d1 := TakeCustomer(d, section);
    if !section.Dict? then Step(d1, false)
    else
      var sec := section.entries;
      var d2 := d1.(belegdatum := Get(sec, "Belegdatum", d1.belegdatum));
      var n := IsoDate.RemoveTimezoneOffset(d2.belegdatum);
      if n.Raises? then Step(d2, false)
      else TakeSupplier(d2.(belegdatum := NodeOf(n), projektnummer := Get(sec, "Projektnummer", d2.projektnummer)), section)
  }

  /** The section loop over `sections`, stopping at the first section that raises. */
  function Scan(d: Record, sections: seq<XNode>): Step
    decreases |sections|
  {
    if sections == [] then Step(d, true)
    else
      var st := ScanSection(d, sections[0]);
      if st.goOn then Scan(st.record, sections[1..]) else st
  }

  /** The extractor's result: the record, or an exception that escapes `get_data_from_xml`. */
  datatype Extraction = Extracted(record: Record) | Crashed

  /**
   * `get_data_from_xml(xml_path, file)` on the file's parsed content
   * (`parsed` is None when reading or parsing the file raised). A document
   * without a `Dokument` dict raises outside the guarded scan.
   */
  function ExtractSpec(file: string, parsed: Option<map<string, XNode>>): Extraction {
    if parsed.None? || !("Dokument" in parsed.value && parsed.value["Dokument"].Dict?) then Crashed
    else
      var dok := parsed.value["Dokument"].entries;
      var d := Defaults(file);
      var header := d.(
        dokumentId := Get(dok, "DokumentID", d.dokumentId),
        belegnummer := Get(dok, "Belegnummer", d.belegnummer),
        fileName := Get(dok, "Filename", d.fileName),
        mandant := MandantFor(Get(dok, "Erfassungspartition_dbid", Empty)),
        dokumentTyp := Get(dok, "Dokumenttyp", d.dokumentTyp),
        bemerkung := Get(dok, "Bemerkung", d.bemerkung),
        betrag := Get(dok, "Netto", d.betrag),
        created := Get(dok, "Created", d.created));
      Extracted(Scan(header, Sections(dok)).record.(status := "Success"))
  }

  /**
   * `get_data_from_xml`, updating the record in place as the source does:
   * header fields first, then the section loop, whose guarded body ends the
   * loop on the first exception.
   */
  method GetDataFromXml(file: string, parsed: Option<map<string, XNode>>) returns (r: Extraction)
    ensures r == ExtractSpec(file, parsed)
  {
    if parsed.None? || "Dokument" !in parsed.value || !parsed.value["Dokument"].Dict? {
      return Crashed;
    }
    var dok := parsed.value["Dokument"].entries;
    var data := Defaults(file);
    data := data.(dokumentId := Get(dok, "DokumentID", data.dokumentId));
    data := data.(belegnummer := Get(dok, "Belegnummer", data.belegnummer));
    data := data.(fileName := Get(dok, "Filename", data.fileName));
    var partition := Get(dok, "Erfassungspartition_dbid", Empty);
    data := data.(mandant := if partition == Text("1801") then Text("Wegra") else Text("EAW"));
    data := data.(dokumentTyp := Get(dok, "Dokumenttyp", data.dokumentTyp));
    data := data.(bemerkung := Get(dok, "Bemerkung", data.bemerkung));
    data := data.(betrag := Get(dok, "Netto", data.betrag));
    data := data.(created := Get(dok, "Created", data.created));

    var sections := Sections(dok);
    ghost var start := data;
    var i := 0;
    while i < |sections|
      invariant 0 <= i <= |sections|
      invariant Scan(start, sections) == Scan(data, sections[i..])
    {
      ghost var before := data;
      assert sections[i..][0] == sections[i] && sections[i..][1..] == sections[i + 1..];
      var section := sections[i];
      if HasDictAt(section, "Geschaeftspartner") {
        var gp := section.entries["Geschaeftspartner"].entries;
        data := data.(kundeNr := Get(gp, "Kundennummer", Get(gp, "Lieferantennummer", data.kundeNr)));
        data := data.(kundeName := Get(gp, "Name", data.kundeName));
      }
      if !section.Dict? {
        break;
      }
      var sec := section.entries;
      data := data.(belegdatum := Get(sec, "Belegdatum", data.belegdatum));
      var normalized := IsoDate.RemoveTimezoneOffset(data.belegdatum);
      if normalized.Raises? {
        break;
      }
      data := data.(belegdatum := NodeOf(normalized));
      data := data.(projektnummer := Get(sec, "Projektnummer", data.projektnummer));
      if data.dokumentTyp == InvoiceType {
        if "Vorgangstyp" !in sec {
          break;
        }
        if sec["Vorgangstyp"] == InvoiceSectionType {
          if !HasDictAt(section, "Geschaeftspartner") {
            break;
          }
          var gp := sec["Geschaeftspartner"].entries;
          data := data.(liefNr := Get(gp, "Lieferantennummer", data.liefNr));
          data := data.(liefName := Get(gp, "Name", data.liefName));
          data := data.(belegdatum := Get(sec, "Belegdatum", data.belegdatum));
          var again := IsoDate.RemoveTimezoneOffset(data.belegdatum);
          if again.Raises? {
            break;
          }
          data := data.(belegdatum := NodeOf(again));
          data := data.(projektnummer := Get(sec, "Projektnummer", Empty));
        }
      }
      assert ScanSection(before, section) == Step(data, true);
      i := i + 1;
    }
    data := data.(status := "Success");
    return Extracted(data);
  }

  // ---------------------------------------------------------------------------
  // Properties of the extraction
  // ---------------------------------------------------------------------------

  /** The header fields: everything the section loop never writes. */
  predicate SameHeader(a: Record, b: Record) {
    && a.originalFileName == b.originalFileName && a.dokumentId == b.dokumentId
    && a.belegnummer == b.belegnummer && a.fileName == b.fileName && a.mandant == b.mandant
    && a.dokumentTyp == b.dokumentTyp && a.bemerkung == b.bemerkung && a.betrag == b.betrag
    && a.created == b.created && a.status == b.status
  }

  lemma SectionKeepsHeader(d: Record, section: XNode)
    ensures SameHeader(ScanSection(d, section).record, d)
  {
  }

  /** The section loop writes only the customer, supplier, date and project fields. */
  lemma {:induction false} ScanKeepsHeader(d: Record, sections: seq<XNode>)
    ensures SameHeader(Scan(d, sections).record, d)
    decreases |sections|
  {
    if sections != [] {
      SectionKeepsHeader(d, sections[0]);
      var st := ScanSection(d, sections[0]);
      if st.goOn {
        ScanKeepsHeader(st.record, sections[1..]);
      }
    }
  }

  /**
   * The extracted record: the run fails only when the file cannot be parsed
   * or has no `Dokument` dict; otherwise every header field is the
   * element's value or the empty default, `OriginalFileName` is the file,
   * `Mandant` is "Wegra" exactly for partition "1801" and "EAW" otherwise,
   * and `status` is "Success".
   */
  lemma ExtractedRecordHeader(file: string, parsed: Option<map<string, XNode>>)
    ensures ExtractSpec(file, parsed).Crashed?
            <==> parsed.None? || "Dokument" !in parsed.value || !parsed.value["Dokument"].Dict?
    ensures ExtractSpec(file, parsed).Extracted? ==>
              var r := ExtractSpec(file, parsed).record;
              var dok := parsed.value["Dokument"].entries;
              && r.status == "Success"
              && r.originalFileName == file
              && r.dokumentId == Get(dok, "DokumentID", Empty)
              && r.belegnummer == Get(dok, "Belegnummer", Empty)
              && r.fileName == Get(dok, "Filename", Empty)
              && r.dokumentTyp == Get(dok, "Dokumenttyp", Empty)
              && r.bemerkung == Get(dok, "Bemerkung", Empty)
              && r.betrag == Get(dok, "Netto", Empty)
              && r.created == Get(dok, "Created", Empty)
              && (r.mandant == Text("Wegra") <==> Get(dok, "Erfassungspartition_dbid", Empty) == Text("1801"))
              && (r.mandant == Text("EAW") <==> Get(dok, "Erfassungspartition_dbid", Empty) != Text("1801"))
  {
    if ExtractSpec(file, parsed).Extracted? {
      var dok := parsed.value["Dokument"].entries;
      var d := Defaults(file);
      var header := d.(
        dokumentId := Get(dok, "DokumentID", d.dokumentId),
        belegnummer := Get(dok, "Belegnummer", d.belegnummer),
        fileName := Get(dok, "Filename", d.fileName),
        mandant := MandantFor(Get(dok, "Erfassungspartition_dbid", Empty)),
        dokumentTyp := Get(dok, "Dokumenttyp", d.dokumentTyp),
        bemerkung := Get(dok, "Bemerkung", d.bemerkung),
        betrag := Get(dok, "Netto", d.betrag),
        created := Get(dok, "Created", d.created));
      ScanKeepsHeader(header, Sections(dok));
    }
  }

  /** Scanning two runs of sections is scanning the first, then (if it went on) the second. */
  lemma {:induction false} ScanComposes(d: Record, a: seq<XNode>, b: seq<XNode>)
    ensures Scan(d, a + b) == if Scan(d, a).goOn then Scan(Scan(d, a).record, b) else Scan(d, a)
    decreases |a|
  {
    if a == [] {
      assert a + b == b;
    } else {
      assert (a + b)[0] == a[0] && (a + b)[1..] == a[1..] + b;
      var st := ScanSection(d, a[0]);
      if st.goOn {
        ScanComposes(st.record, a[1..], b);
      }
    }
  }

  /** A running date the normaliser accepts without raising: a string or None. */
  predicate Settled(v: XNode) {
    v.Text? || v.Null?
  }

  /** While the loop goes on, the running date stays a string or None. */
  lemma {:induction false} ScanKeepsDateSettled(d: Record, sections: seq<XNode>)
    requires Settled(d.belegdatum) && Scan(d, sections).goOn
    ensures Settled(Scan(d, sections).record.belegdatum)
    decreases |sections|
  {
    if sections != [] {
      ScanKeepsDateSettled(ScanSection(d, sections[0]).record, sections[1..]);
    }
  }

  /**
   * Last-present-wins: when the loop reaches a final section, that section's
   * partner number (`Kundennummer`, else `Lieferantennummer`) and name
   * replace the running values; and if its date is a string or None, its
   * project number and its normalised date replace theirs, on every
   * document type.
   */
  lemma LastSectionWins(d: Record, earlier: seq<XNode>, last: XNode)
    requires Settled(d.belegdatum) && Scan(d, earlier).goOn
    ensures HasDictAt(last, "Geschaeftspartner") ==>
              var gp := last.entries["Geschaeftspartner"].entries;
              var r := Scan(d, earlier + [last]).record;
              && ("Kundennummer" in gp ==> r.kundeNr == gp["Kundennummer"])
              && ("Kundennummer" !in gp && "Lieferantennummer" in gp ==> r.kundeNr == gp["Lieferantennummer"])
              && ("Name" in gp ==> r.kundeName == gp["Name"])
    ensures last.Dict? && "Projektnummer" in last.entries
            && ("Belegdatum" in last.entries ==> Settled(last.entries["Belegdatum"])) ==>
              Scan(d, earlier + [last]).record.projektnummer == last.entries["Projektnummer"]
    ensures last.Dict? && "Belegdatum" in last.entries && Settled(last.entries["Belegdatum"]) ==>
              Scan(d, earlier + [last]).record.belegdatum
                == NodeOf(IsoDate.RemoveTimezoneOffset(last.entries["Belegdatum"]))
  {
    ScanComposes(d, earlier, [last]);
    ScanKeepsDateSettled(d, earlier);
    var mid := Scan(d, earlier).record;
    assert Scan(mid, [last]) == ScanSection(mid, last);
  }

  /** Does this section hold a partner dict with a customer or supplier number? */
  predicate CarriesPartnerNumber(section: XNode) {
    HasDictAt(section, "Geschaeftspartner")
    && ("Kundennummer" in section.entries["Geschaeftspartner"].entries
        || "Lieferantennummer" in section.entries["Geschaeftspartner"].entries)
  }

  /** Does this section hold a partner dict with a `Name`? */
  predicate CarriesPartnerName(section: XNode) {
    HasDictAt(section, "Geschaeftspartner") && "Name" in section.entries["Geschaeftspartner"].entries
  }

  /** Is this section a dict holding `key`? */
  predicate CarriesKey(section: XNode, key: string) {
    section.Dict? && key in section.entries
  }

  /**
   * The keep half of last-present-wins, for one section: a section without
   * the key leaves that running value alone. The exceptions are the ones the
   * code makes: an incoming-invoice section resets a missing project number
   * to "", and the first dict section turns the initial empty date into None
   * (`remove_timezone_offset("")`).
   */
  lemma SectionWithoutKeyKeeps(d: Record, section: XNode)
    requires DateInNormalForm(d.belegdatum)
    ensures !CarriesPartnerNumber(section) ==> ScanSection(d, section).record.kundeNr == d.kundeNr
    ensures !CarriesPartnerName(section) ==> ScanSection(d, section).record.kundeName == d.kundeName
    ensures !CarriesKey(section, "Projektnummer") && !IsInvoiceSection(d.dokumentTyp, section) ==>
              ScanSection(d, section).record.projektnummer == d.projektnummer
    ensures !CarriesKey(section, "Projektnummer") && IsInvoiceSection(d.dokumentTyp, section)
            && ScanSection(d, section).goOn ==>
              ScanSection(d, section).record.projektnummer == Empty
    ensures !CarriesKey(section, "Belegdatum") && d.belegdatum != Empty ==>
              ScanSection(d, section).record.belegdatum == d.belegdatum
    ensures section.Dict? && !CarriesKey(section, "Belegdatum") && d.belegdatum == Empty ==>
              ScanSection(d, section).record.belegdatum == Null
  {
    if section.Dict? && !CarriesKey(section, "Belegdatum") {
      var v := d.belegdatum;
      var n := IsoDate.RemoveTimezoneOffset(v);
      if !n.Raises? {
        assert v != Empty ==> NodeOf(n) == v;
        if v == Empty {
          assert NodeOf(n) == Null;
        }
        assert IsoDate.RemoveTimezoneOffset(NodeOf(n)) == n by {
          if n.DateText? {
            IsoDate.NormalizationIsIdempotent(v);
          }
        }
      }
    }
  }

  /**
   * The keep half lifted over runs of sections: when no section of `later`
   * carries the key, the value after `earlier + later` is the value after
   * `earlier`. With `LastSectionWins` this is last-present-wins.
   */
  lemma {:induction false} LaterSectionsWithoutKeyKeep(d: Record, earlier: seq<XNode>, later: seq<XNode>)
    requires DateInNormalForm(d.belegdatum)
    ensures (forall k :: 0 <= k < |later| ==> !CarriesPartnerNumber(later[k])) ==>
              Scan(d, earlier + later).record.kundeNr == Scan(d, earlier).record.kundeNr
    ensures (forall k :: 0 <= k < |later| ==> !CarriesPartnerName(later[k])) ==>
              Scan(d, earlier + later).record.kundeName == Scan(d, earlier).record.kundeName
    ensures (forall k :: 0 <= k < |later| ==>
               !CarriesKey(later[k], "Projektnummer") && !IsInvoiceSection(d.dokumentTyp, later[k])) ==>
              Scan(d, earlier + later).record.projektnummer == Scan(d, earlier).record.projektnummer
    ensures Scan(d, earlier).record.belegdatum != Empty
            && (forall k :: 0 <= k < |later| ==> !CarriesKey(later[k], "Belegdatum")) ==>
              Scan(d, earlier + later).record.belegdatum == Scan(d, earlier).record.belegdatum
  {
    ScanComposes(d, earlier, later);
    ScanKeepsHeader(d, earlier);
    ScanKeepsDateNormalForm(d, earlier);
    if Scan(d, earlier).goOn {
      ScanWithoutKeyKeeps(Scan(d, earlier).record, later);
    }
  }

  /** `SectionWithoutKeyKeeps` over a whole scan. */
  lemma {:induction false} ScanWithoutKeyKeeps(d: Record, sections: seq<XNode>)
    requires DateInNormalForm(d.belegdatum)
    ensures (forall k :: 0 <= k < |sections| ==> !CarriesPartnerNumber(sections[k])) ==>
              Scan(d, sections).record.kundeNr == d.kundeNr
    ensures (forall k :: 0 <= k < |sections| ==> !CarriesPartnerName(sections[k])) ==>
              Scan(d, sections).record.kundeName == d.kundeName
    ensures (forall k :: 0 <= k < |sections| ==>
               !CarriesKey(sections[k], "Projektnummer") && !IsInvoiceSection(d.dokumentTyp, sections[k])) ==>
              Scan(d, sections).record.projektnummer == d.projektnummer
    ensures d.belegdatum != Empty && (forall k :: 0 <= k < |sections| ==> !CarriesKey(sections[k], "Belegdatum")) ==>
              Scan(d, sections).record.belegdatum == d.belegdatum
    decreases |sections|
  {
    if sections != [] {
      var st := ScanSection(d, sections[0]);
      SectionWithoutKeyKeeps(d, sections[0]);
      SectionKeepsHeader(d, sections[0]);
      SectionKeepsDateNormalForm(d, sections[0]);
      if st.goOn {
        assert forall k :: 0 <= k < |sections| - 1 ==> sections[1..][k] == sections[k + 1];
        ScanWithoutKeyKeeps(st.record, sections[1..]);
      }
    }
  }

  /**
   * Supplier fields come only from incoming-invoice sections: if no section
   * is an `EingangsRechnungImpl` section of an `Eingangsrechnung`, the scan
   * leaves `LiefNr` and `LiefName` as they were (empty, in a fresh record).
   */
  lemma {:induction false} SupplierOnlyFromInvoiceSections(d: Record, sections: seq<XNode>)
    requires forall k :: 0 <= k < |sections| ==> !IsInvoiceSection(d.dokumentTyp, sections[k])
    ensures Scan(d, sections).record.liefNr == d.liefNr
    ensures Scan(d, sections).record.liefName == d.liefName
    decreases |sections|
  {
    if sections != [] {
      var st := ScanSection(d, sections[0]);
      if st.goOn {
        SectionKeepsHeader(d, sections[0]);
        SupplierOnlyFromInvoiceSections(st.record, sections[1..]);
      }
    }
  }

  /**
   * An `EingangsRechnungImpl` section of an `Eingangsrechnung` with a
   * partner dict sets the supplier number and name from the partner (when
   * given), resets the project number to the section's value or "", and lets
   * the loop go on, provided its date is a string or None.
   */
  lemma InvoiceSectionSetsSupplier(d: Record, section: XNode)
    requires IsInvoiceSection(d.dokumentTyp, section) && HasDictAt(section, "Geschaeftspartner")
    requires Settled(d.belegdatum)
    requires "Belegdatum" in section.entries ==> Settled(section.entries["Belegdatum"])
    ensures var st := ScanSection(d, section);
            var gp := section.entries["Geschaeftspartner"].entries;
            && st.goOn
            && st.record.liefNr == Get(gp, "Lieferantennummer", d.liefNr)
            && st.record.liefName == Get(gp, "Name", d.liefName)
            && st.record.projektnummer == Get(section.entries, "Projektnummer", Empty)
  {
  }

  /**
   * The values `Belegdatum` can hold: empty (no section reached), None
   * (the normaliser returned None), a date the normaliser maps to itself,
   * or the non-empty dict or list that made it raise.
   */
  predicate DateInNormalForm(v: XNode) {
    || v == Empty
    || v == Null
    || (v.Text? && IsoDate.RemoveTimezoneOffset(v) == IsoDate.DateText(v.s))
    || ((v.Dict? || v.List?) && Truthy(v))
  }

  lemma NodeOfNormalForm(n: IsoDate.Normalized, v: XNode)
    requires n == IsoDate.RemoveTimezoneOffset(v) && !n.Raises?
    ensures DateInNormalForm(NodeOf(n))
  {
    if n.DateText? {
      IsoDate.NormalizationIsIdempotent(v);
    }
  }

  /** Whatever the normaliser returned or raised on, the result is in normal form. */
  lemma NormalizedDateInNormalForm(v: XNode)
    ensures IsoDate.RemoveTimezoneOffset(v).Raises? ==> DateInNormalForm(v)
    ensures !IsoDate.RemoveTimezoneOffset(v).Raises? ==>
              DateInNormalForm(NodeOf(IsoDate.RemoveTimezoneOffset(v)))
  {
    var n := IsoDate.RemoveTimezoneOffset(v);
    if !n.Raises? {
      NodeOfNormalForm(n, v);
    }
  }

  lemma SupplierKeepsDateNormalForm(d: Record, section: XNode)
    requires section.Dict? && DateInNormalForm(d.belegdatum)
    ensures DateInNormalForm(TakeSupplier(d, section).record.belegdatum)
  {
    NormalizedDateInNormalForm(Get(section.entries, "Belegdatum", d.belegdatum));
  }

  lemma SectionKeepsDateNormalForm(d: Record, section: XNode)
    requires DateInNormalForm(d.belegdatum)
    ensures DateInNormalForm(ScanSection(d, section).record.belegdatum)
  {
    if section.Dict? {
      var raw := Get(section.entries, "Belegdatum", d.belegdatum);
      NormalizedDateInNormalForm(raw);
      var n := IsoDate.RemoveTimezoneOffset(raw);
      if !n.Raises? {
        var d1 := TakeCustomer(d, section);
        SupplierKeepsDateNormalForm(
          d1.(belegdatum := NodeOf(n), projektnummer := Get(section.entries, "Projektnummer", d1.projektnummer)),
          section);
      }
    }
  }

  lemma {:induction false} ScanKeepsDateNormalForm(d: Record, sections: seq<XNode>)
    requires DateInNormalForm(d.belegdatum)
    ensures DateInNormalForm(Scan(d, sections).record.belegdatum)
    decreases |sections|
  {
    if sections != [] {
      SectionKeepsDateNormalForm(d, sections[0]);
      var st := ScanSection(d, sections[0]);
      if st.goOn {
        ScanKeepsDateNormalForm(st.record, sections[1..]);
      }
    }
  }

  /**
   * A non-empty `Belegdatum` string in an extracted record is always a
   * normalised `YYYY-MM-DD` date; otherwise the field is empty, None, or the
   * raw element whose normalisation raised and ended the scan.
   */
  lemma ExtractedDateIsNormalized(file: string, parsed: Option<map<string, XNode>>)
    requires ExtractSpec(file, parsed).Extracted?
    ensures DateInNormalForm(ExtractSpec(file, parsed).record.belegdatum)
    ensures var v := ExtractSpec(file, parsed).record.belegdatum;
            v.Text? && v.s != "" ==> IsoDate.IsDateShape(v.s)
  {
    var dok := parsed.value["Dokument"].entries;
    var d := Defaults(file);
    var header := d.(
      dokumentId := Get(dok, "DokumentID", d.dokumentId),
      belegnummer := Get(dok, "Belegnummer", d.belegnummer),
      fileName := Get(dok, "Filename", d.fileName),
      mandant := MandantFor(Get(dok, "Erfassungspartition_dbid", Empty)),
      dokumentTyp := Get(dok, "Dokumenttyp", d.dokumentTyp),
      bemerkung := Get(dok, "Bemerkung", d.bemerkung),
      betrag := Get(dok, "Netto", d.betrag),
      created := Get(dok, "Created", d.created));
    ScanKeepsDateNormalForm(header, Sections(dok));
  }
}
