/**
 * client/src/components/settings/DocumentNumberFormattingSection.tsx: the settings card that
 * edits one number format per document type and previews the next number. The edited
 * formats are kept per type; a type never loaded or edited shows the defaults.
 */
module NumberFormattingSection {
  import opened Wrappers
  import opened Text
  import opened Schema
  import Db

  const DocumentTypes: seq<string> := ["invoice", "estimate", "receipt", "proposal", "expense"]
  const Separators: seq<string> := ["-", "_", ".", "/", ""]
  const PaddingOptions: seq<int> := [2, 3, 4, 5, 6, 7, 8]

  /** The fields of a format the card edits. */
  datatype Draft = Draft(prefix: string, padding: int, separator: string, currentNumber: int)

  const DefaultDraft: Draft := Draft("", 6, "-", 1)

  /** The draft shown for a type: the stored one, or the defaults. */
  function CurrentFormat(formats: map<string, Draft>, selectedType: string): (d: Draft)
    ensures selectedType !in formats ==> d == Draft("", 6, "-", 1)
    ensures selectedType in formats ==> d == formats[selectedType]
  {
    if selectedType in formats then formats[selectedType] else DefaultDraft
  }

  /**
   * `generatePreview`: the padding falls back to 6, the number to 1 and an empty separator
   * to '-'; an empty prefix shows the padded number alone.
   */
  function Preview(d: Draft): (r: string)
    ensures d.prefix == "" ==> r == PadStart(IntToString(if d.currentNumber == 0 then 1 else d.currentNumber), if d.padding == 0 then 6 else d.padding, '0')
  {
    var padding := if d.padding == 0 then 6 else d.padding;
    var padded := PadStart(IntToString(if d.currentNumber == 0 then 1 else d.currentNumber), padding, '0');
    var separator := if d.separator == "" then "-" else d.separator;
    if d.prefix != "" then d.prefix + separator + padded else padded
  }

  /** The draft the card holds for a stored format record. */
  function DraftOf(f: NumberFormat): Draft {
    Draft(f.prefix, f.padding, f.separator, f.currentNumber)
  }

  /** The preview of a stored format is exactly the number the server issues next from it. */
  lemma PreviewIsNextNumber(f: NumberFormat)
    ensures Preview(DraftOf(f)) == Db.FormattedNumber(f)
  {
  }

  /** The "None" separator still previews '-'. */
  lemma NoneSeparatorPreviewsDash(d: Draft)
    requires d.prefix != ""
    ensures Preview(d.(separator := "")) == Preview(d.(separator := "-"))
    ensures Preview(d.(separator := ""))[|d.prefix|] == '-'
  {
  }

  /** The preview of the defaults is "000001". */
  lemma DefaultPreview()
    ensures Preview(DefaultDraft) == "000001"
  {
    assert IntToString(1) == "1";
  }

  /** The digits of the preview read back as the counter, padded to at least the padding. */
  lemma PreviewDigits(d: Draft)
    requires d.currentNumber >= 0
    ensures var r := Preview(d);
            var n := if d.currentNumber == 0 then 1 else d.currentNumber;
            var head := if d.prefix == "" then "" else d.prefix + (if d.separator == "" then "-" else d.separator);
            head <= r && ParseInt(r[|head|..]) == Some(n)
  {
    var n := if d.currentNumber == 0 then 1 else d.currentNumber;
    Db.FormatExampleShape(d.prefix, if d.padding == 0 then 6 else d.padding, if d.separator == "" then "-" else d.separator, n);
  }

  /** `parseInt(value) || 1`: a non-numeric or zero entry becomes 1. */
  function CurrentNumberInput(text: string): (n: int)
    ensures ParseInt(text).None? ==> n == 1
    ensures ParseInt(text).Some? && ParseInt(text).value != 0 ==> n == ParseInt(text).value
    ensures n != 0
  {
    match ParseInt(text)
    case None => 1
    case Some(v) => if v == 0 then 1 else v
  }

  /** Typing back a shown counter stores that counter. */
  lemma CurrentNumberRoundTrip(n: int)
    requires n != 0
    ensures CurrentNumberInput(IntToString(n)) == n
  {
    ParseIntOfIntToString(n);
  }

  /** The padding menu offers 2 to 8 digits, and each option's label pads "1" to that width. */
  lemma PaddingOptionsAreTwoToEight()
    ensures forall w :: w in PaddingOptions <==> 2 <= w <= 8
    ensures forall w :: w in PaddingOptions ==> |PadStart("1", w, '0')| == w
  {
    forall w | 2 <= w <= 8 ensures w in PaddingOptions {
      assert PaddingOptions[w - 2] == w;
    }
  }

  /** Choosing an option reads back the number it shows. */
  lemma PaddingOptionRoundTrip(w: int)
    requires w in PaddingOptions
    ensures ParseInt(IntToString(w)) == Some(w)
  {
    ParseIntOfIntToString(w);
  }

  /** `handleUpdateFormat`: the request sent for the shown draft; the counter is not part of it. */
  function UpdateRequest(formats: map<string, Draft>, selectedType: string): (r: (string, Option<string>, Option<int>, Option<string>))
    ensures r.0 == selectedType
    ensures var d := CurrentFormat(formats, selectedType); r.1 == Some(d.prefix) && r.2 == Some(d.padding) && r.3 == Some(d.separator)
  {
    var d := CurrentFormat(formats, selectedType);
    (selectedType, Some(d.prefix), Some(d.padding), Some(d.separator))
  }

  /** Saving a draft for a type with no record yet stores the format the preview showed for counter 1. */
  lemma SavedNewFormatMatchesPreview(id: string, formats: map<string, Draft>, selectedType: string)
    ensures var (t, p, w, s) := UpdateRequest(formats, selectedType);
            Db.NewFormat(id, t, p, w, s).formatExample == Preview(CurrentFormat(formats, selectedType).(currentNumber := 1))
  {
  }

  class FormattingSection {
    var formats: map<string, Draft>
    var selectedType: string

    constructor()
      ensures formats == map[] && selectedType == "invoice"
    {
      formats := map[];
      selectedType := "invoice";
    }

    function Shown(): Draft
      reads this
    {
      CurrentFormat(formats, selectedType)
    }

    /** The query for the selected type answered: its record replaces the draft. */
    method Loaded(data: NumberFormat)
      modifies this`formats
      ensures formats == old(formats)[selectedType := DraftOf(data)]
    {
      formats := formats[selectedType := DraftOf(data)];
    }

    method SelectType(t: string)
      modifies this`selectedType
      ensures selectedType == t
    {
      selectedType := t;
    }

    method SetPrefix(value: string)
      modifies this`formats
      ensures formats == old(formats)[selectedType := old(Shown()).(prefix := value)]
    {
      formats := formats[selectedType := Shown().(prefix := value)];
    }

    method SetPadding(option: int)
      requires option in PaddingOptions
      modifies this`formats
      ensures formats == old(formats)[selectedType := old(Shown()).(padding := option)]
    {
      PaddingOptionRoundTrip(option);
      var parsed := ParseInt(IntToString(option));
      formats := formats[selectedType := Shown().(padding := parsed.value)];
    }

    method SetSeparator(value: string)
      modifies this`formats
      ensures formats == old(formats)[selectedType := old(Shown()).(separator := value)]
    {
      formats := formats[selectedType := Shown().(separator := value)];
    }

    method SetCurrentNumber(text: string)
      modifies this`formats
      ensures formats == old(formats)[selectedType := old(Shown()).(currentNumber := CurrentNumberInput(text))]
      ensures formats[selectedType].currentNumber != 0
    {
      formats := formats[selectedType := Shown().(currentNumber := CurrentNumberInput(text))];
    }
  }
}
