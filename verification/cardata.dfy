/**
 * The record `generate_car_data_dict` returns for one listing
 * (SVS/sv_base.py:99-144): the brand, the title and the engine entries.
 * The mileage, fuel type, gearbox, year and price are computed on the way
 * and then dropped; only a lookup that raises among them matters, because
 * it makes the whole call raise.
 */
module CarData {
  import opened Wrappers
  import opened Engine
  import opened Fields
  import opened PyText

  /** The dict the function returns. */
  type Row = map<string, string>

  /** The only keys the record can hold. */
  const RecordKeys: set<string> := {"brand", "title", "cilinder", "hp"}

  /**
   * Which title line 108 computes: `AsWritten` is the code as it stands,
   * whose title is always `''`; `Corrected` reads the first stripped string.
   */
  datatype Revision = AsWritten | Corrected

  /** The title the revision stores for the title link's text nodes. */
  function TitleOf(rev: Revision, texts: Option<seq<string>>): (r: string)
    ensures rev == AsWritten ==> r == ""
    ensures rev == Corrected ==> r == Title(texts)
  {
    match rev
    case AsWritten => TitleAsWritten(texts)
    case Corrected => Title(texts)
  }

  /** The dict of lines 100-125: `brand`, `title`, then the engine entries `engine` adds. */
  function Assemble(brand: string, title: string, engine: map<string, string>): (r: Row)
    requires engine.Keys <= {"cilinder", "hp"}
    ensures r.Keys == {"brand", "title"} + engine.Keys
    ensures r["brand"] == brand && r["title"] == title
    ensures forall k :: k in engine ==> r[k] == engine[k]
  {
    map["brand" := brand, "title" := title] + engine
  }

  /**
   * Lines 100-144: `brand` (line 102), `title` (lines 107-111), the engine
   * entries (lines 114-125); then lines 127-142 run and may raise, which
   * abandons the record. The record holds the engine keys exactly when the
   * engine block stores them.
   */
  function GenerateCarData(rev: Revision, brand: string, l: Listing): (r: Result<Row, Fault>)
    ensures r.Err? <==> Normalise(l).Err?
    ensures r.Err? ==> r.error == Normalise(l).error
    ensures r.Ok? ==> r.value.Keys == {"brand", "title"} + EngineEntries(EngineField(l.engineLine)).Keys
    ensures r.Ok? ==> r.value.Keys <= RecordKeys
    ensures r.Ok? ==> r.value["brand"] == brand
    ensures r.Ok? && rev == AsWritten ==> r.value["title"] == ""
    ensures r.Ok? && rev == Corrected ==> r.value["title"] == Title(l.titleTexts)
    ensures r.Ok? ==> ("cilinder" in r.value <==> "hp" in r.value)
    ensures r.Ok? ==> forall k :: k in EngineEntries(EngineField(l.engineLine)) ==>
      r.value[k] == EngineEntries(EngineField(l.engineLine))[k]
  {
    match Normalise(l)
    case Err(e) => Err(e)
    case Ok(_) => Ok(Assemble(brand, TitleOf(rev, l.titleTexts), EngineEntries(EngineField(l.engineLine))))
  }

  /**
   * The two revisions build the same record except for its title, which as
   * written is `''` whatever the title link shows.
   */
  lemma RevisionsDifferInTitleOnly(brand: string, l: Listing)
    ensures GenerateCarData(AsWritten, brand, l).Ok? <==> GenerateCarData(Corrected, brand, l).Ok?
    ensures GenerateCarData(AsWritten, brand, l).Ok? ==>
      GenerateCarData(Corrected, brand, l).value ==
        GenerateCarData(AsWritten, brand, l).value["title" := Title(l.titleTexts)]
  {
    if Normalise(l).Ok? {
      var a := GenerateCarData(AsWritten, brand, l).value;
      var c := GenerateCarData(Corrected, brand, l).value;
      assert c.Keys == a["title" := Title(l.titleTexts)].Keys;
    }
  }

  /**
   * Line 108 at record level: a listing whose title link shows text still
   * gets the title `''` as written, where the corrected record keeps it.
   */
  lemma AsWrittenRecordLosesTitle(brand: string, l: Listing)
    requires Normalise(l).Ok?
    requires l.titleTexts.Some? && exists k :: 0 <= k < |l.titleTexts.value| && Strip(l.titleTexts.value[k]) != ""
    ensures GenerateCarData(AsWritten, brand, l).value["title"] == ""
    ensures GenerateCarData(Corrected, brand, l).value["title"] != ""
  {
    TitleIsFirstVisibleText(l.titleTexts.value);
  }

  /**
   * The normalised mileage, fuel type, gearbox, year and price never reach
   * the record: two listings that agree on the title and the engine line,
   * and whose normalisation both succeed, give the same record.
   */
  lemma RecordIgnoresNormalisedFields(rev: Revision, brand: string, l: Listing, m: Listing)
    requires l.titleTexts == m.titleTexts && l.engineLine == m.engineLine
    requires Normalise(l).Ok? && Normalise(m).Ok?
    ensures GenerateCarData(rev, brand, l) == GenerateCarData(rev, brand, m)
  {
    var a := GenerateCarData(rev, brand, l).value;
    var b := GenerateCarData(rev, brand, m).value;
    assert a.Keys == b.Keys;
  }

  /** A listing whose title and engine lookups fail still gives a record with both defaults. */
  lemma RecordDefaults(rev: Revision, brand: string, l: Listing)
    requires l.titleTexts.None? && l.engineLine.None? && Normalise(l).Ok?
    ensures var r := GenerateCarData(rev, brand, l);
      && r.Ok? && r.value.Keys == RecordKeys
      && r.value["brand"] == brand && r.value["title"] == ""
      && r.value["cilinder"] == "" && r.value["hp"] == ""
  {
    var engine := EngineEntries(EngineField(l.engineLine));
    assert engine == map["cilinder" := "", "hp" := ""];
    assert "cilinder" in engine && "hp" in engine;
  }
}
