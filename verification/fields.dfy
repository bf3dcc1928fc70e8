/**
 * The per-listing field lookups of `generate_car_data_dict`
 * (SVS/sv_base.py:99-144) and the string clean-up applied to each of them.
 * Every document lookup is an input: `None` stands for a lookup that gave
 * `None`, so that the next attribute access on it raises.
 */
module Fields {
  import opened Wrappers
  import opened PyText

  /** The mileage `<dd data-parameter="mileage">` inside the info list. */
  datatype Mileage =
    | NoMileageTag                 // the `find` gave `None`
    | MileageWithoutString         // the tag exists but its `.string` is `None`
    | MileageText(text: string)    // the tag's `.string`

  /**
   * One listing `<section>` as the lookups of lines 104-141 see it.
   *   titleTexts  the text nodes under the title section's `h1.a`; `None`
   *               when the section, `h1` or `a` is missing
   *   engineLine  `car_title_section.p.string`; `None` when the section or
   *               `p` is missing or `p` has no single string
   *   info        the mileage tag of the info `<dl>`; `None` when the info
   *               `<div>` or its `<dl>` is missing
   *   fuelType, gearbox, year, priceText
   *               the `.text` of the matching tag, `None` when absent
   */
  datatype Listing = Listing(
    titleTexts: Option<seq<string>>,
    engineLine: Option<string>,
    info: Option<Mileage>,
    fuelType: Option<string>,
    gearbox: Option<string>,
    year: Option<string>,
    priceText: Option<string>)

  /** Why building a listing's record raises past its own `try` blocks. */
  datatype Fault =
    | MissingInfoList      // line 127: `.dl` of `None`, or `.find` on a `None` list
    | MileageNotAString    // line 130: `.replace` on a `None` string

  /**
   * bs4's `stripped_strings` over the text nodes `nodes`: each node
   * `strip()`ped, the ones that strip to nothing dropped, order kept.
   */
  function StrippedStrings(nodes: seq<string>): (r: seq<string>)
    ensures |r| <= |nodes|
    ensures forall k :: 0 <= k < |r| ==> r[k] != "" && Unpadded(r[k])
    decreases |nodes|
  {
    if |nodes| == 0 then []
    else
      var head := Strip(nodes[0]);
      if head == "" then StrippedStrings(nodes[1..]) else [head] + StrippedStrings(nodes[1..])
  }

  /**
   * The title the code evidently means to store (lines 107-111): the first
   * of the stripped strings, or `''` when the title lookup fails or the
   * title holds no visible text.
   */
  function Title(texts: Option<seq<string>>): (r: string)
    ensures texts.None? ==> r == ""
    ensures Strip(r) == r
  {
    match texts
    case None => ""
    case Some(nodes) =>
      var strings := StrippedStrings(nodes);
      if |strings| == 0 then ""
      else
        StripUntouched(strings[0]);
        strings[0]
  }

  /**
   * The title as line 108 computes it: `stripped_strings` is a generator, so
   * subscripting it raises `TypeError` whenever the lookups succeed, and a
   * failed lookup raises `AttributeError`; the handler stores `''` both ways.
   */
  function TitleAsWritten(texts: Option<seq<string>>): (r: string)
    ensures r == ""
  {
    match texts
    case None => ""           // AttributeError on a `None` lookup
    case Some(_) => ""        // TypeError: 'generator' object is not subscriptable
  }

  /** The first stripped string is the first node that is not blank, stripped. */
  lemma {:induction false} StrippedStringsFirst(nodes: seq<string>, i: nat)
    requires i < |nodes| && Strip(nodes[i]) != ""
    requires forall k :: 0 <= k < i ==> Strip(nodes[k]) == ""
    ensures |StrippedStrings(nodes)| > 0 && StrippedStrings(nodes)[0] == Strip(nodes[i])
    decreases i
  {
    if i > 0 {
      StrippedStringsFirst(nodes[1..], i - 1);
    }
  }

  /** Every node is blank exactly when there are no stripped strings. */
  lemma {:induction false} StrippedStringsEmpty(nodes: seq<string>)
    ensures |StrippedStrings(nodes)| == 0 <==> forall k :: 0 <= k < |nodes| ==> Strip(nodes[k]) == ""
  {
    if |nodes| > 0 {
      StrippedStringsEmpty(nodes[1..]);
      assert forall k :: 1 <= k < |nodes| ==> nodes[k] == nodes[1..][k - 1];
    }
  }

  /**
   * The title is the first node that is not blank, stripped; it is `''`
   * exactly when every node is blank.
   */
  lemma TitleIsFirstVisibleText(nodes: seq<string>)
    ensures Title(Some(nodes)) == "" <==> forall k :: 0 <= k < |nodes| ==> Strip(nodes[k]) == ""
    ensures forall i :: 0 <= i < |nodes| && Strip(nodes[i]) != "" && (forall k :: 0 <= k < i ==> Strip(nodes[k]) == "") ==>
      Title(Some(nodes)) == Strip(nodes[i])
  {
    StrippedStringsEmpty(nodes);
    forall i | 0 <= i < |nodes| && Strip(nodes[i]) != "" && (forall k :: 0 <= k < i ==> Strip(nodes[k]) == "")
      ensures Title(Some(nodes)) == Strip(nodes[i])
    {
      StrippedStringsFirst(nodes, i);
    }
  }

  /** The title that line 108 means to read is lost: a visible title still gives `''`. */
  lemma TitleAsWrittenLosesTitle(nodes: seq<string>)
    requires exists k :: 0 <= k < |nodes| && Strip(nodes[k]) != ""
    ensures TitleAsWritten(Some(nodes)) == ""
    ensures Title(Some(nodes)) != ""
  {
    TitleIsFirstVisibleText(nodes);
  }

  /**
   * Line 130: a missing mileage tag becomes `"1"`; otherwise `" km"` and then
   * every ASCII space are removed, and a tag without a single string raises.
   */
  function NormaliseMileage(m: Mileage): (r: Result<string, Fault>)
    ensures r.Err? <==> m.MileageWithoutString?
    ensures r.Err? ==> r.error == MileageNotAString
    ensures m.NoMileageTag? ==> r == Ok("1")
    ensures r.Ok? ==> ' ' !in r.value
    ensures m.MileageText? ==> multiset(r.value) <= multiset(m.text)
  {
    match m
    case NoMileageTag => Ok("1")
    case MileageWithoutString => Err(MileageNotAString)
    case MileageText(t) =>
      var kept := RemoveAll(RemoveAll(t, " km"), " ");
      RemoveCharGone(RemoveAll(t, " km"), ' ');
      Ok(kept)
  }

  /** A reading followed by its unit: `"<x> km"` gives `x` without its spaces, when `x` has no `k`. */
  lemma MileageOfReading(x: string)
    requires 'k' !in x
    ensures NormaliseMileage(MileageText(x + " km")) == Ok(RemoveAll(x, " "))
  {
    RemoveTrailingPattern(x, " km");
  }

  /** Normalising an already-normalised mileage changes nothing. */
  lemma MileageIdempotent(m: Mileage)
    requires NormaliseMileage(m).Ok?
    ensures NormaliseMileage(MileageText(NormaliseMileage(m).value)) == NormaliseMileage(m)
  {
    var v := NormaliseMileage(m).value;
    AbsentFirstChar(v, " km");
    RemoveAbsentPattern(v, " km");
    RemoveAbsentChar(v, ' ');
  }

  /**
   * Lines 133-139: the text of a present field, unchanged, and `"N/A"` for a
   * missing one. A field whose text is `"N/A"` reads like a missing one, and
   * nothing else does.
   */
  function OrNotAvailable(field: Option<string>): (r: string)
    ensures field.Some? ==> r == field.value
    ensures r == "N/A" <==> field == None || field == Some("N/A")
  {
    match field
    case None => "N/A"
    case Some(text) => text
  }

  /**
   * Line 142: every `"EUR"`, then every ASCII space, is removed and the rest
   * `strip()`ped; a missing price container gives `"N/A"`.
   */
  function NormalisePrice(text: Option<string>): (r: string)
    ensures text.None? ==> r == "N/A"
    ensures text.Some? ==> ' ' !in r && Strip(r) == r
    ensures text.Some? ==> |r| <= |text.value|
  {
    match text
    case None => "N/A"
    case Some(t) =>
      var spaced := RemoveAll(t, "EUR");
      var unspaced := RemoveAll(spaced, " ");
      RemoveCharGone(spaced, ' ');
      StripIdempotent(unspaced);
      StripAddsNothing(unspaced, ' ');
      Strip(unspaced)
  }

  /** An amount followed by its currency: `"<x>EUR"` gives `x` without spaces, stripped, when `x` has no `U`. */
  lemma PriceOfAmount(x: string)
    requires 'U' !in x
    ensures NormalisePrice(Some(x + "EUR")) == Strip(RemoveAll(x, " "))
  {
    RemoveTrailingPattern(x, "EUR");
  }

  /** The field values of lines 129-142, computed and then not stored in the record. */
  datatype Normalised = Normalised(mileage: string, fuelType: string, gearbox: string, year: string, price: string)

  /**
   * Lines 127-142 in order: the info list must exist (line 127) and the
   * mileage tag, when present, must have a single string (line 130); the
   * other lookups cannot raise.
   */
  function Normalise(l: Listing): (r: Result<Normalised, Fault>)
    ensures l.info.None? ==> r == Err(MissingInfoList)
    ensures l.info.Some? ==> (r.Err? <==> l.info.value.MileageWithoutString?)
    ensures r.Err? ==> r.error == MissingInfoList || r.error == MileageNotAString
    ensures r.Ok? ==> r.value.mileage == NormaliseMileage(l.info.value).value
    ensures r.Ok? ==> r.value.price == NormalisePrice(l.priceText)
    ensures r.Ok? ==> r.value.fuelType == OrNotAvailable(l.fuelType)
    ensures r.Ok? ==> r.value.gearbox == OrNotAvailable(l.gearbox)
    ensures r.Ok? ==> r.value.year == OrNotAvailable(l.year)
  {
    match l.info
    case None => Err(MissingInfoList)
    case Some(m) =>
      match NormaliseMileage(m)
      case Err(e) => Err(e)
      case Ok(km) =>
        Ok(Normalised(km, OrNotAvailable(l.fuelType), OrNotAvailable(l.gearbox), OrNotAvailable(l.year),
                      NormalisePrice(l.priceText)))
  }
}
