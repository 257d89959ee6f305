/**
 * The options record of the formatting panel (src/components/FormatOptions.tsx):
 * four string-valued select fields and three boolean toggles, updated one field at a
 * time by building a new record.
 */
module FormatOptions {

  /** ABNTOptions: the user's formatting choices. */
  datatype AbntOptions = AbntOptions(
    fontFamily: string,
    fontSize: string,
    lineSpacing: string,
    margins: string,
    autoCaptions: bool,
    pageNumbers: bool,
    headerFooter: bool)

  /** The keys of ABNTOptions, as `keyof ABNTOptions` enumerates them. */
  datatype OptionKey = FontFamily | FontSize | LineSpacing | Margins | AutoCaptions | PageNumbers | HeaderFooter
  {
    /** The boolean-typed keys; the others are string-typed. */
    predicate IsToggle() {
      this == AutoCaptions || this == PageNumbers || this == HeaderFooter
    }
  }

  /** A field value: a string for a select, a boolean for a toggle. */
  datatype OptionValue = Text(text: string) | Flag(flag: bool)

  /** `ABNTOptions[K]`: the value's type agrees with the key's field type. */
  predicate Fits(k: OptionKey, v: OptionValue) {
    if k.IsToggle() then v.Flag? else v.Text?
  }

  const AllKeys: set<OptionKey> := {FontFamily, FontSize, LineSpacing, Margins, AutoCaptions, PageNumbers, HeaderFooter}
  const TextKeys: set<OptionKey> := {FontFamily, FontSize, LineSpacing, Margins}
  const ToggleKeys: set<OptionKey> := {AutoCaptions, PageNumbers, HeaderFooter}

  /** The record has exactly four string fields and three boolean fields, and nothing else. */
  lemma FieldKinds()
    ensures |TextKeys| == 4 && |ToggleKeys| == 3
    ensures TextKeys * ToggleKeys == {} && TextKeys + ToggleKeys == AllKeys
    ensures forall k: OptionKey :: k in AllKeys
    ensures forall k :: k in ToggleKeys <==> k.IsToggle()
  {
    forall k: OptionKey ensures k in AllKeys {
      match k
      case FontFamily =>
      case FontSize =>
      case LineSpacing =>
      case Margins =>
      case AutoCaptions =>
      case PageNumbers =>
      case HeaderFooter =>
    }
  }

  /** Reads field `k` of the record. */
  function Get(o: AbntOptions, k: OptionKey): (v: OptionValue)
    ensures Fits(k, v)
  {
    match k
    case FontFamily => Text(o.fontFamily)
    case FontSize => Text(o.fontSize)
    case LineSpacing => Text(o.lineSpacing)
    case Margins => Text(o.margins)
    case AutoCaptions => Flag(o.autoCaptions)
    case PageNumbers => Flag(o.pageNumbers)
    case HeaderFooter => Flag(o.headerFooter)
  }

  /** Two records that agree on every field are the same record. */
  lemma GetExtensional(a: AbntOptions, b: AbntOptions)
    requires forall k :: Get(a, k) == Get(b, k)
    ensures a == b
  {
    assert Get(a, FontFamily) == Get(b, FontFamily);
    assert Get(a, FontSize) == Get(b, FontSize);
    assert Get(a, LineSpacing) == Get(b, LineSpacing);
    assert Get(a, Margins) == Get(b, Margins);
    assert Get(a, AutoCaptions) == Get(b, AutoCaptions);
    assert Get(a, PageNumbers) == Get(b, PageNumbers);
    assert Get(a, HeaderFooter) == Get(b, HeaderFooter);
  }

  /** `updateOption(key, value)`: `{ ...options, [key]: value }`. */
  function UpdateOption(o: AbntOptions, k: OptionKey, v: OptionValue): (r: AbntOptions)
    requires Fits(k, v)
    ensures Get(r, k) == v
    ensures forall k' :: k' != k ==> Get(r, k') == Get(o, k')
  {
    match k
    case FontFamily => o.(fontFamily := v.text)
    case FontSize => o.(fontSize := v.text)
    case LineSpacing => o.(lineSpacing := v.text)
    case Margins => o.(margins := v.text)
    case AutoCaptions => o.(autoCaptions := v.flag)
    case PageNumbers => o.(pageNumbers := v.flag)
    case HeaderFooter => o.(headerFooter := v.flag)
  }

  /** Setting a field to the value it already has gives back an equal record. */
  lemma UpdateToCurrentIsIdentity(o: AbntOptions, k: OptionKey)
    ensures UpdateOption(o, k, Get(o, k)) == o
  {
    GetExtensional(UpdateOption(o, k, Get(o, k)), o);
  }

  /** Of two updates to the same field, the later one wins. */
  lemma UpdateOverwrites(o: AbntOptions, k: OptionKey, v1: OptionValue, v2: OptionValue)
    requires Fits(k, v1) && Fits(k, v2)
    ensures UpdateOption(UpdateOption(o, k, v1), k, v2) == UpdateOption(o, k, v2)
  {
    GetExtensional(UpdateOption(UpdateOption(o, k, v1), k, v2), UpdateOption(o, k, v2));
  }

  /** Updates to different fields do not interfere: their order does not matter. */
  lemma UpdatesCommute(o: AbntOptions, k1: OptionKey, v1: OptionValue, k2: OptionKey, v2: OptionValue)
    requires k1 != k2 && Fits(k1, v1) && Fits(k2, v2)
    ensures UpdateOption(UpdateOption(o, k1, v1), k2, v2) == UpdateOption(UpdateOption(o, k2, v2), k1, v1)
  {
    GetExtensional(UpdateOption(UpdateOption(o, k1, v1), k2, v2), UpdateOption(UpdateOption(o, k2, v2), k1, v1));
  }

  /** A ToggleOption click: `onChange(!checked)` on the toggle's current value. */
  function Toggle(o: AbntOptions, k: OptionKey): (r: AbntOptions)
    requires k.IsToggle()
    ensures Get(r, k) == Flag(!Get(o, k).flag)
    ensures forall k' :: k' != k ==> Get(r, k') == Get(o, k')
  {
    UpdateOption(o, k, Flag(!Get(o, k).flag))
  }

  /** Clicking a toggle twice restores the original record. */
  lemma ToggleTwiceRestores(o: AbntOptions, k: OptionKey)
    requires k.IsToggle()
    ensures Toggle(Toggle(o, k), k) == o
  {
    GetExtensional(Toggle(Toggle(o, k), k), o);
  }

  /** The values offered by each select, in the order the options are listed. */
  const FontFamilyChoices: seq<string> := ["Times New Roman", "Arial"]
  const FontSizeChoices: seq<string> := ["12pt", "10pt"]
  const LineSpacingChoices: seq<string> := ["1.5", "1.0", "2.0"]
  const MarginChoices: seq<string> := ["abnt", "normal"]

  /** The values the select for a string-valued key offers. */
  function Choices(k: OptionKey): (cs: seq<string>)
    requires !k.IsToggle()
    ensures |cs| >= 2
    ensures forall i, j :: 0 <= i < j < |cs| ==> cs[i] != cs[j]
  {
    match k
    case FontFamily => FontFamilyChoices
    case FontSize => FontSizeChoices
    case LineSpacing => LineSpacingChoices
    case Margins => MarginChoices
  }

  /** Every select field holds one of the values its select offers. */
  predicate Recognised(o: AbntOptions) {
    && o.fontFamily in FontFamilyChoices
    && o.fontSize in FontSizeChoices
    && o.lineSpacing in LineSpacingChoices
    && o.margins in MarginChoices
  }

  /**
   * Changes made through the panel (a select's change to an offered value, or a toggle)
   * keep a recognised record recognised: the panel itself never produces an unrecognised value.
   */
  lemma PanelKeepsRecognised(o: AbntOptions, k: OptionKey, v: OptionValue)
    requires Recognised(o) && Fits(k, v)
    requires !k.IsToggle() ==> v.text in Choices(k)
    ensures Recognised(UpdateOption(o, k, v))
  {
    var r := UpdateOption(o, k, v);
    assert Get(r, k) == v;
    match k
    case FontFamily =>
      assert Get(r, FontSize) == Get(o, FontSize) && Get(r, LineSpacing) == Get(o, LineSpacing) && Get(r, Margins) == Get(o, Margins);
    case FontSize =>
      assert Get(r, FontFamily) == Get(o, FontFamily) && Get(r, LineSpacing) == Get(o, LineSpacing) && Get(r, Margins) == Get(o, Margins);
    case LineSpacing =>
      assert Get(r, FontFamily) == Get(o, FontFamily) && Get(r, FontSize) == Get(o, FontSize) && Get(r, Margins) == Get(o, Margins);
    case Margins =>
      assert Get(r, FontFamily) == Get(o, FontFamily) && Get(r, FontSize) == Get(o, FontSize) && Get(r, LineSpacing) == Get(o, LineSpacing);
    case _ =>
      assert Get(r, FontFamily) == Get(o, FontFamily) && Get(r, FontSize) == Get(o, FontSize);
      assert Get(r, LineSpacing) == Get(o, LineSpacing) && Get(r, Margins) == Get(o, Margins);
  }
}
