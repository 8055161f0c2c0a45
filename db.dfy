/**
 * server/db.ts: the settings store (an upsert by key), the two document-numbering schemes
 * (a legacy counter kept in the `<type>_next` setting, and a per-type format record), default
 * settings, role-permission links and the user update.
 */
module Db {
  import opened Wrappers
  import opened Text
  import opened Schema

  type SettingsTable = map<string, Setting>

  const NumberingCategory: string := "document_numbering"

  /** JavaScript `a || b` on optional text: b when a is absent or empty. */
  function OrElse(a: Option<string>, b: Option<string>): Option<string> {
    if a.Some? && a.value != "" then a else b
  }

  // ---------------------------------------------------------------- settings

  /**
   * The settings table after `setSetting(key, value, category, description)`. An existing
   * row keeps its id, and keeps its category and description where the new ones are absent
   * or empty; a new key gets a row named freshId.
   */
  function Upsert(t: SettingsTable, key: string, value: string, category: Option<string>,
                  description: Option<string>, freshId: string): (r: SettingsTable)
    ensures r.Keys == t.Keys + {key}
    ensures r[key].value == value
    ensures key in t ==> r[key].id == t[key].id
    ensures key in t ==> r[key].category == OrElse(category, t[key].category)
    ensures key in t ==> r[key].description == OrElse(description, t[key].description)
    ensures key !in t ==> r[key] == Setting(freshId, value, category, description)
    ensures forall k :: k in t && k != key ==> r[k] == t[k]
  {
    if key in t then
      t[key := Setting(t[key].id, value, OrElse(category, t[key].category), OrElse(description, t[key].description))]
    else
      t[key := Setting(freshId, value, category, description)]
  }

  /** Setting a key twice with the same value and a category is the same as setting it once. */
  lemma UpsertIdempotent(t: SettingsTable, key: string, value: string, category: Option<string>,
                         description: Option<string>, id1: string, id2: string)
    ensures Upsert(Upsert(t, key, value, category, description, id1), key, value, category, description, id2)
         == Upsert(t, key, value, category, description, id1)
  {
    var t1 := Upsert(t, key, value, category, description, id1);
    var t2 := Upsert(t1, key, value, category, description, id2);
    assert t2[key] == t1[key];
    assert forall k :: k in t2 ==> t2[k] == t1[k];
  }

  method SetSetting(db: Database, key: string, value: string, category: Option<string>, description: Option<string>)
    returns (id: string)
    modifies db`settings, db`tick
    ensures db.settings == Upsert(old(db.settings), key, value, category, description, FreshId("set", old(db.tick)))
    ensures id == if key in old(db.settings) then old(db.settings)[key].id else FreshId("set", old(db.tick))
    ensures db.tick == old(db.tick) + 1
  {
    var freshId := FreshId("set", db.tick);
    db.tick := db.tick + 1;
    if key in db.settings {
      var existing := db.settings[key];
      db.settings := db.settings[key := Setting(existing.id, value, OrElse(category, existing.category), OrElse(description, existing.description))];
      id := existing.id;
    } else {
      db.settings := db.settings[key := Setting(freshId, value, category, description)];
      id := freshId;
    }
  }

  // ---------------------------------------------------------------- legacy numbering

  function NextKey(docType: string): string { docType + "_next" }

  function PrefixKey(docType: string): string { docType + "_prefix" }

  /** The prefix of a document type that has no `<type>_prefix` setting. */
  function DefaultPrefix(docType: string): (p: string)
    ensures p == "DOC-" <==> docType !in {"invoice", "estimate", "receipt", "proposal", "expense"}
    ensures |p| >= 4 && p[|p| - 1] == '-'
  {
    match docType
    case "invoice" => "INV-"
    case "estimate" => "EST-"
    case "receipt" => "REC-"
    case "proposal" => "PROP-"
    case "expense" => "EXP-"
    case _ => "DOC-"
  }

  /** `getSetting(key)?.value || fallback`. */
  function ValueOr(t: SettingsTable, key: string, fallback: string): string {
    if key in t && t[key].value != "" then t[key].value else fallback
  }

  /** `parseInt(text)`, with 1 in place of NaN. */
  function CounterValue(text: string): int {
    match ParseInt(text)
    case Some(n) => n
    case None => 1
  }

  /** A counter stored as its decimal text reads back as itself. */
  lemma CounterValueOfInt(k: int)
    ensures CounterValue(IntToString(k)) == k
  {
    ParseIntOfIntToString(k);
  }

  /** The number the legacy scheme issues next: `parseInt` of `<type>_next`, 1 when that is NaN. */
  function CurrentCounter(t: SettingsTable, docType: string): int {
    CounterValue(ValueOr(t, NextKey(docType), "1"))
  }

  function LegacyPrefix(t: SettingsTable, docType: string): string {
    ValueOr(t, PrefixKey(docType), DefaultPrefix(docType))
  }

  /** The document number `getNextDocumentNumber` returns for the given table. */
  function LegacyNumber(t: SettingsTable, docType: string): string {
    LegacyPrefix(t, docType) + PadStart(IntToString(CurrentCounter(t, docType)), 6, '0')
  }

  /** The settings table after `getNextDocumentNumber` has stored the incremented counter. */
  function AfterIssue(t: SettingsTable, docType: string, freshId: string): SettingsTable {
    Upsert(t, NextKey(docType), IntToString(CurrentCounter(t, docType) + 1), Some(NumberingCategory), None, freshId)
  }

  /** Without a `<type>_next` setting the legacy counter starts at 1. */
  lemma CounterDefaultsToOne(t: SettingsTable, docType: string)
    requires NextKey(docType) !in t
    ensures CurrentCounter(t, docType) == 1
  {
    ParseIntOfDigits(1);
  }

  /** A `<type>_next` setting with no digit in it (empty, or text such as "abc") also gives 1. */
  lemma CounterWithoutDigitsIsOne(t: SettingsTable, docType: string)
    requires NextKey(docType) in t
    requires forall i :: 0 <= i < |t[NextKey(docType)].value| ==> !IsDigit(t[NextKey(docType)].value[i])
    ensures CurrentCounter(t, docType) == 1
  {
    var v := t[NextKey(docType)].value;
    if v == "" {
      ParseIntOfDigits(1);
    } else {
      ParseIntNoDigits(v);
    }
  }

  /**
   * A legacy number is the prefix followed by the counter zero-padded to at least six
   * digits; a longer counter appears in full, and the digits read back as the counter.
   */
  lemma LegacyNumberShape(prefix: string, n: nat)
    ensures var r := prefix + PadStart(IntToString(n), 6, '0');
            && prefix <= r
            && |r| - |prefix| == (if |Digits(n)| < 6 then 6 else |Digits(n)|)
            && ParseInt(r[|prefix|..]) == Some(n)
  {
    var padded := PadStart(Digits(n), 6, '0');
    assert (prefix + padded)[|prefix|..] == padded;
    ParseIntOfPadded(n, 6);
  }

  /** After the counter setting is stored as the text of k, the legacy counter issues exactly k next. */
  lemma CounterAfterStore(t: SettingsTable, docType: string, k: int, category: Option<string>, freshId: string)
    ensures CurrentCounter(Upsert(t, NextKey(docType), IntToString(k), category, None, freshId), docType) == k
  {
    CounterValueOfInt(k);
  }

  /** Issuing a legacy number advances its counter by exactly one. */
  lemma IssueAdvancesCounter(t: SettingsTable, docType: string, freshId: string)
    ensures CurrentCounter(AfterIssue(t, docType, freshId), docType) == CurrentCounter(t, docType) + 1
  {
    CounterAfterStore(t, docType, CurrentCounter(t, docType) + 1, Some(NumberingCategory), freshId);
  }

  lemma SuffixKeysDiffer(a: string, b: string)
    ensures NextKey(a) != PrefixKey(b)
    ensures a != b ==> NextKey(a) != NextKey(b)
  {
    var x, y := NextKey(a), PrefixKey(b);
    assert x[|x| - 1] == 't' && y[|y| - 1] == 'x';
    if a != b && |a| == |b| {
      assert NextKey(a)[..|a|] == a && NextKey(b)[..|b|] == b;
    }
  }

  /** Storing one type's counter (an issue or a reset) leaves every other type's counter as it was. */
  lemma StoreKeepsOtherCounters(t: SettingsTable, a: string, b: string, v: string, category: Option<string>, freshId: string)
    requires a != b
    ensures CurrentCounter(Upsert(t, NextKey(a), v, category, None, freshId), b) == CurrentCounter(t, b)
  {
    SuffixKeysDiffer(a, b);
  }

  /** Storing a counter (an issue or a reset) leaves every type's prefix as it was. */
  lemma StoreKeepsPrefixes(t: SettingsTable, a: string, b: string, v: string, category: Option<string>, freshId: string)
    ensures LegacyPrefix(Upsert(t, NextKey(a), v, category, None, freshId), b) == LegacyPrefix(t, b)
  {
    SuffixKeysDiffer(a, b);
  }

  /** After an issue the counter is listed among the numbering settings, with its new value. */
  lemma IssueListsCounter(t: SettingsTable, docType: string, v: string, freshId: string)
    ensures var r := GetDocumentNumberingSettings(Upsert(t, NextKey(docType), v, Some(NumberingCategory), None, freshId));
            NextKey(docType) in r && r[NextKey(docType)] == v
  {
  }

  /** One prefix never yields the same legacy number for two different counters. */
  lemma LegacyNumbersDistinct(prefix: string, m: nat, n: nat)
    requires m != n
    ensures prefix + PadStart(IntToString(m), 6, '0') != prefix + PadStart(IntToString(n), 6, '0')
  {
    var pm, pn := PadStart(Digits(m), 6, '0'), PadStart(Digits(n), 6, '0');
    PaddedDistinct(m, n, 6);
    assert (prefix + pm)[|prefix|..] == pm && (prefix + pn)[|prefix|..] == pn;
  }

  /** The legacy number after an issue: the same prefix, the next counter. */
  lemma LegacyNumberAfterIssue(t: SettingsTable, docType: string, freshId: string)
    ensures LegacyNumber(AfterIssue(t, docType, freshId), docType)
            == LegacyPrefix(t, docType) + PadStart(IntToString(CurrentCounter(t, docType) + 1), 6, '0')
  {
    var n := CurrentCounter(t, docType);
    IssueAdvancesCounter(t, docType, freshId);
    StoreKeepsPrefixes(t, docType, docType, IntToString(n + 1), Some(NumberingCategory), freshId);
  }

  /** Two successive legacy numbers of one type differ (while the counter is not negative). */
  lemma SuccessiveLegacyNumbersDiffer(t: SettingsTable, docType: string, freshId: string)
    requires CurrentCounter(t, docType) >= 0
    ensures LegacyNumber(AfterIssue(t, docType, freshId), docType) != LegacyNumber(t, docType)
  {
    LegacyNumberAfterIssue(t, docType, freshId);
    NextLegacyNumberDiffers(LegacyNumber(AfterIssue(t, docType, freshId), docType), LegacyPrefix(t, docType), CurrentCounter(t, docType));
  }

  lemma NextLegacyNumberDiffers(x: string, prefix: string, n: nat)
    requires x == prefix + PadStart(IntToString(n + 1), 6, '0')
    ensures x != prefix + PadStart(IntToString(n), 6, '0')
  {
    LegacyNumbersDistinct(prefix, n + 1, n);
  }

  method GetNextDocumentNumber(db: Database, docType: string) returns (r: string)
    modifies db`settings, db`tick
    ensures r == LegacyNumber(old(db.settings), docType)
    ensures db.settings == AfterIssue(old(db.settings), docType, FreshId("set", old(db.tick)))
    ensures db.tick == old(db.tick) + 1
  {
    var prefix := ValueOr(db.settings, PrefixKey(docType), DefaultPrefix(docType));
    var nextText := ValueOr(db.settings, NextKey(docType), "1");
    var num := match ParseInt(nextText) case Some(n) => n case None => 1;
    r := prefix + PadStart(IntToString(num), 6, '0');
    var _ := SetSetting(db, NextKey(docType), IntToString(num + 1), Some(NumberingCategory), None);
  }

  /** `resetDocumentNumberCounter(type, startNumber = 1)`. */
  method ResetDocumentNumberCounter(db: Database, docType: string, startNumber: Option<int>)
    modifies db`settings, db`tick
    ensures db.settings == Upsert(old(db.settings), NextKey(docType), IntToString(startNumber.GetOr(1)),
                                  Some(NumberingCategory), None, FreshId("set", old(db.tick)))
    ensures db.tick == old(db.tick) + 1
  {
    var _ := SetSetting(db, NextKey(docType), IntToString(startNumber.GetOr(1)), Some(NumberingCategory), None);
  }

  /** `getDocumentNumberingSettings`: key to value of every setting in the numbering category. */
  function GetDocumentNumberingSettings(t: SettingsTable): (r: map<string, string>)
    ensures forall k :: k in r <==> k in t && t[k].category == Some(NumberingCategory)
    ensures forall k :: k in r ==> r[k] == t[k].value
  {
    map k | k in t && t[k].category == Some(NumberingCategory) :: t[k].value
  }

  // ---------------------------------------------------------------- formatted numbering

  /** `generateFormatExample(prefix, padding, separator, n)`. */
  function FormatExample(prefix: string, padding: int, separator: string, n: int): string {
    var padded := PadStart(IntToString(n), padding, '0');
    if prefix != "" then prefix + separator + padded else padded
  }

  function EffectivePadding(f: NumberFormat): int { if f.padding == 0 then 6 else f.padding }

  function EffectiveSeparator(f: NumberFormat): string { if f.separator == "" then "-" else f.separator }

  function EffectiveNumber(f: NumberFormat): int { if f.currentNumber == 0 then 1 else f.currentNumber }

  /** The number `getNextDocumentNumberWithFormat` issues from a format record. */
  function FormattedNumber(f: NumberFormat): string {
    FormatExample(f.prefix, EffectivePadding(f), EffectiveSeparator(f), EffectiveNumber(f))
  }

  /**
   * A formatted number is the padded counter alone when the prefix is empty, and otherwise
   * prefix, separator and padded counter; the padded digits read back as the counter.
   */
  lemma FormatExampleShape(prefix: string, padding: int, separator: string, n: nat)
    ensures var r := FormatExample(prefix, padding, separator, n);
            var head := if prefix == "" then "" else prefix + separator;
            && head <= r
            && |r| - |head| == (if |Digits(n)| < padding then padding else |Digits(n)|)
            && ParseInt(r[|head|..]) == Some(n)
  {
    var padded := PadStart(Digits(n), padding, '0');
    var head := if prefix == "" then "" else prefix + separator;
    assert FormatExample(prefix, padding, separator, n) == head + padded;
    assert (head + padded)[|head|..] == padded;
    ParseIntOfPadded(n, padding);
  }

  /** One format never yields the same number for two different counters. */
  lemma FormatExampleInjective(prefix: string, padding: int, separator: string, m: nat, n: nat)
    requires m != n
    ensures FormatExample(prefix, padding, separator, m) != FormatExample(prefix, padding, separator, n)
  {
    var head := if prefix == "" then "" else prefix + separator;
    var pm, pn := PadStart(Digits(m), padding, '0'), PadStart(Digits(n), padding, '0');
    PaddedDistinct(m, n, padding);
    assert (head + pm)[|head|..] == pm && (head + pn)[|head|..] == pn;
  }

  /** Two successive formatted numbers of one type differ (while the counter is not negative). */
  lemma SuccessiveFormattedNumbersDiffer(f: NumberFormat)
    requires EffectiveNumber(f) >= 0
    ensures FormattedNumber(f.(currentNumber := EffectiveNumber(f) + 1)) != FormattedNumber(f)
  {
    FormatExampleInjective(f.prefix, EffectivePadding(f), EffectiveSeparator(f), EffectiveNumber(f) + 1, EffectiveNumber(f));
  }

  /** An update merged into an existing record: supplied fields replace the stored ones, the others keep their values. */
  function MergeFormat(f: NumberFormat, prefix: Option<string>, padding: Option<int>, separator: Option<string>): (r: NumberFormat)
    ensures r.id == f.id && r.documentType == f.documentType && r.currentNumber == f.currentNumber
    ensures r.formatExample == f.formatExample && r.isActive == f.isActive
    ensures prefix.None? ==> r.prefix == f.prefix
    ensures padding.None? ==> r.padding == f.padding
    ensures separator.None? ==> r.separator == f.separator
    ensures prefix.Some? ==> r.prefix == prefix.value
    ensures padding.Some? ==> r.padding == padding.value
    ensures separator.Some? ==> r.separator == separator.value
  {
    f.(prefix := prefix.GetOr(f.prefix), padding := padding.GetOr(f.padding), separator := separator.GetOr(f.separator))
  }

  /** A new record: empty prefix, padding 6 and separator '-' unless given (0 and '' count as not given). */
  function NewFormat(id: string, docType: string, prefix: Option<string>, padding: Option<int>, separator: Option<string>): (r: NumberFormat)
    ensures r.id == id && r.currentNumber == 1 && r.isActive && r.documentType == docType
    ensures r.prefix == prefix.GetOr("")
    ensures padding.Some? && padding.value != 0 ==> r.padding == padding.value
    ensures separator.Some? && separator.value != "" ==> r.separator == separator.value
    ensures padding.None? || padding == Some(0) ==> r.padding == 6
    ensures separator.None? || separator == Some("") ==> r.separator == "-"
    ensures r.formatExample == FormattedNumber(r)
  {
    var p := prefix.GetOr("");
    var w := if padding.GetOr(0) == 0 then 6 else padding.GetOr(0);
    var s := if separator.GetOr("") == "" then "-" else separator.GetOr("");
    NumberFormat(id, docType, p, w, s, 1, FormatExample(p, w, s, 1), true)
  }

  method UpdateDocumentNumberFormat(db: Database, docType: string, prefix: Option<string>, padding: Option<int>, separator: Option<string>)
    returns (id: string)
    modifies db`formats, db`tick
    ensures docType in db.formats
    ensures docType in old(db.formats) ==>
      && db.formats == old(db.formats)[docType := MergeFormat(old(db.formats)[docType], prefix, padding, separator)]
      && id == old(db.formats)[docType].id && db.tick == old(db.tick)
    ensures docType !in old(db.formats) ==>
      && db.formats == old(db.formats)[docType := NewFormat(FreshId("dnf", old(db.tick)), docType, prefix, padding, separator)]
      && id == FreshId("dnf", old(db.tick)) && db.tick == old(db.tick) + 1
  {
    if docType in db.formats {
      var existing := db.formats[docType];
      db.formats := db.formats[docType := MergeFormat(existing, prefix, padding, separator)];
      id := existing.id;
    } else {
      id := FreshId("dnf", db.tick);
      db.tick := db.tick + 1;
      db.formats := db.formats[docType := NewFormat(id, docType, prefix, padding, separator)];
    }
  }

  /** The formatted branch of `getNextDocumentNumberWithFormat`: build the number, store counter + 1. */
  method IssueFormattedNumber(db: Database, docType: string) returns (r: string)
    requires docType in db.formats
    modifies db`formats
    ensures r == FormattedNumber(old(db.formats)[docType])
    ensures db.formats == old(db.formats)[docType := old(db.formats)[docType].(currentNumber := EffectiveNumber(old(db.formats)[docType]) + 1)]
  {
    var format := db.formats[docType];
    var padding := if format.padding == 0 then 6 else format.padding;
    var separator := if format.separator == "" then "-" else format.separator;
    var nextNum := if format.currentNumber == 0 then 1 else format.currentNumber;
    var padded := PadStart(IntToString(nextNum), padding, '0');
    r := if format.prefix != "" then format.prefix + separator + padded else padded;
    assert r == FormatExample(format.prefix, padding, separator, nextNum);
    db.formats := db.formats[docType := format.(currentNumber := nextNum + 1)];
  }

  /** `getNextDocumentNumberWithFormat`: the type's format when it has one, else the legacy counter. */
  method GetNextDocumentNumberWithFormat(db: Database, docType: string) returns (r: string)
    modifies db`settings, db`formats, db`tick
    ensures docType in old(db.formats) ==> r == FormattedNumber(old(db.formats)[docType])
    ensures docType in old(db.formats) ==>
      db.formats == old(db.formats)[docType := old(db.formats)[docType].(currentNumber := EffectiveNumber(old(db.formats)[docType]) + 1)]
    ensures docType in old(db.formats) ==> unchanged(db`settings, db`tick)
    ensures docType !in old(db.formats) ==> r == LegacyNumber(old(db.settings), docType)
    ensures docType !in old(db.formats) ==> db.settings == AfterIssue(old(db.settings), docType, FreshId("set", old(db.tick)))
    ensures docType !in old(db.formats) ==> unchanged(db`formats) && db.tick == old(db.tick) + 1
  {
    if docType !in db.formats {
      r := GetNextDocumentNumber(db, docType);
    } else {
      r := IssueFormattedNumber(db, docType);
    }
  }

  /** `resetDocumentNumberFormatCounter(type, startNumber = 1)`: only the counter changes. */
  method ResetDocumentNumberFormatCounter(db: Database, docType: string, startNumber: Option<int>)
    modifies db`formats
    ensures docType in old(db.formats) ==>
      db.formats == old(db.formats)[docType := old(db.formats)[docType].(currentNumber := startNumber.GetOr(1))]
    ensures docType !in old(db.formats) ==> db.formats == old(db.formats)
  {
    if docType in db.formats {
      db.formats := db.formats[docType := db.formats[docType].(currentNumber := startNumber.GetOr(1))];
    }
  }

  // ---------------------------------------------------------------- default settings

  /** `allDefaults.find(d => d.key === key)`: the first default row with that key. */
  function FindDefault(ds: seq<DefaultSetting>, key: string): (r: Option<DefaultSetting>)
    ensures r.Some? ==> r.value in ds && r.value.key == key
    ensures r.None? <==> forall i :: 0 <= i < |ds| ==> ds[i].key != key
    ensures r.Some? ==> exists i :: 0 <= i < |ds| && ds[i] == r.value && forall j :: 0 <= j < i ==> ds[j].key != key
  {
    if ds == [] then None
    else if ds[0].key == key then Some(ds[0])
    else
      var r := FindDefault(ds[1..], key);
      assert r.Some? ==> exists i :: 0 <= i < |ds| && ds[i] == r.value && forall j :: 0 <= j < i ==> ds[j].key != key by {
        if r.Some? {
          var i :| 0 <= i < |ds[1..]| && ds[1..][i] == r.value && forall j :: 0 <= j < i ==> ds[1..][j].key != key;
          assert ds[i + 1] == r.value && forall j :: 0 <= j < i + 1 ==> ds[j].key != key;
        }
      }
      r
  }

  /** `resetSettingToDefault(key)`: set the key to its first default, if it has one. */
  method ResetSettingToDefault(db: Database, key: string)
    modifies db`settings, db`tick
    ensures FindDefault(db.defaults, key).None? ==> db.settings == old(db.settings) && db.tick == old(db.tick)
    ensures FindDefault(db.defaults, key).Some? ==>
      var d := FindDefault(db.defaults, key).value;
      db.settings == Upsert(old(db.settings), key, d.defaultValue, Some(d.category), None, FreshId("set", old(db.tick)))
    ensures FindDefault(db.defaults, key).Some? ==> db.tick == old(db.tick) + 1
  {
    var found := FindDefault(db.defaults, key);
    if found.Some? {
      var _ := SetSetting(db, key, found.value.defaultValue, Some(found.value.category), None);
    }
  }

  /** The default rows of one category, in stored order. */
  function CategoryDefaults(ds: seq<DefaultSetting>, category: string): (r: seq<DefaultSetting>)
    ensures forall d :: d in r <==> d in ds && d.category == category
  {
    if ds == [] then []
    else (if ds[0].category == category then [ds[0]] else []) + CategoryDefaults(ds[1..], category)
  }

  /** Settings table and id counter after one default: `setSetting` when its value is non-empty. */
  function ApplyDefault(state: (SettingsTable, nat), d: DefaultSetting, category: string): (SettingsTable, nat) {
    if d.defaultValue != "" then (Upsert(state.0, d.key, d.defaultValue, Some(category), None, FreshId("set", state.1)), state.1 + 1)
    else state
  }

  /** Settings table and id counter after `setSetting` of each non-empty default of ds, in order. */
  function ApplyDefaults(t: SettingsTable, tick: nat, ds: seq<DefaultSetting>, category: string): (SettingsTable, nat)
  {
    if ds == [] then (t, tick)
    else ApplyDefault(ApplyDefaults(t, tick, ds[..|ds| - 1], category), ds[|ds| - 1], category)
  }

  predicate DistinctKeys(ds: seq<DefaultSetting>) {
    forall i, j :: 0 <= i < j < |ds| ==> ds[i].key != ds[j].key
  }

  /**
   * After resetting a category, every default with a non-empty value is the setting's value,
   * and every setting with no default in the list is untouched.
   */
  lemma {:induction false} ApplyDefaultsRestores(t: SettingsTable, tick: nat, ds: seq<DefaultSetting>, category: string)
    requires DistinctKeys(ds)
    ensures var r := ApplyDefaults(t, tick, ds, category).0;
            && (forall i :: 0 <= i < |ds| && ds[i].defaultValue != "" ==> ds[i].key in r && r[ds[i].key].value == ds[i].defaultValue)
            && (forall k :: k in t && (forall i :: 0 <= i < |ds| ==> ds[i].key != k) ==> k in r && r[k] == t[k])
  {
    if ds != [] {
      var front := ds[..|ds| - 1];
      ApplyDefaultsRestores(t, tick, front, category);
      var d := ds[|ds| - 1];
      assert forall i :: 0 <= i < |front| ==> front[i] == ds[i] && front[i].key != d.key;
    }
  }

  lemma ApplyDefaultsStep(t: SettingsTable, tick: nat, ds: seq<DefaultSetting>, i: nat, category: string)
    requires i < |ds|
    ensures ApplyDefaults(t, tick, ds[..i + 1], category) == ApplyDefault(ApplyDefaults(t, tick, ds[..i], category), ds[i], category)
  {
    assert ds[..i + 1][..i] == ds[..i];
  }

  /** The loop body of `resetCategoryToDefaults`: store one default when its value is non-empty. */
  method ResetOneDefault(db: Database, d: DefaultSetting, category: string)
    modifies db`settings, db`tick
    ensures (db.settings, db.tick) == ApplyDefault((old(db.settings), old(db.tick)), d, category)
  {
    if d.defaultValue != "" {
      var _ := SetSetting(db, d.key, d.defaultValue, Some(category), None);
    }
  }

  method ResetCategoryToDefaults(db: Database, category: string)
    modifies db`settings, db`tick
    ensures (db.settings, db.tick) == ApplyDefaults(old(db.settings), old(db.tick), CategoryDefaults(db.defaults, category), category)
  {
    var ds := CategoryDefaults(db.defaults, category);
    ghost var t0, tick0 := db.settings, db.tick;
    var i := 0;
    while i < |ds|
      invariant 0 <= i <= |ds|
      invariant (db.settings, db.tick) == ApplyDefaults(t0, tick0, ds[..i], category)
    {
      ApplyDefaultsStep(t0, tick0, ds, i, category);
      ResetOneDefault(db, ds[i], category);
      i := i + 1;
    }
    assert ds[..|ds|] == ds;
  }

  // ---------------------------------------------------------------- role permissions

  type Links = map<(string, string), string>

  /** The links and returned id after `assignPermissionToRole(role, permission)`. */
  function AssignLink(links: Links, role: string, permission: string, freshId: string): (r: (Links, string))
    ensures (role, permission) in r.0 && r.0[(role, permission)] == r.1
    ensures (role, permission) in links ==> r == (links, links[(role, permission)])
    ensures (role, permission) !in links ==> r.1 == freshId && r.0.Keys == links.Keys + {(role, permission)}
    ensures forall k :: k in links ==> k in r.0 && r.0[k] == links[k]
  {
    if (role, permission) in links then (links, links[(role, permission)])
    else (links[(role, permission) := freshId], freshId)
  }

  /** Assigning a pair a second time changes nothing and returns the first assignment's id. */
  lemma AssignIdempotent(links: Links, role: string, permission: string, id1: string, id2: string)
    ensures AssignLink(AssignLink(links, role, permission, id1).0, role, permission, id2) == AssignLink(links, role, permission, id1)
  {
  }

  /** Removing a freshly assigned pair restores the links as they were. */
  lemma RemoveUndoesAssign(links: Links, role: string, permission: string, id: string)
    requires (role, permission) !in links
    ensures AssignLink(links, role, permission, id).0 - {(role, permission)} == links
  {
  }

  method AssignPermissionToRole(db: Database, role: string, permission: string) returns (id: string)
    modifies db`rolePermissions, db`tick
    ensures (db.rolePermissions, id) == AssignLink(old(db.rolePermissions), role, permission, FreshId("rp", old(db.tick)))
    ensures db.tick == old(db.tick) + (if (role, permission) in old(db.rolePermissions) then 0 else 1)
  {
    if (role, permission) in db.rolePermissions {
      return db.rolePermissions[(role, permission)];
    }
    id := FreshId("rp", db.tick);
    db.tick := db.tick + 1;
    db.rolePermissions := db.rolePermissions[(role, permission) := id];
  }

  method RemovePermissionFromRole(db: Database, role: string, permission: string)
    modifies db`rolePermissions
    ensures db.rolePermissions == old(db.rolePermissions) - {(role, permission)}
  {
    db.rolePermissions := db.rolePermissions - {(role, permission)};
  }

  // ---------------------------------------------------------------- users

  /**
   * The fields `updateUser` copies. None stands for a field that is not given; for a nullable
   * column, Some(None) stands for a field given as `null`, which the source copies like any value.
   */
  datatype UserPatch = UserPatch(
    name: Option<Option<string>>,
    email: Option<Option<string>>,
    loginMethod: Option<Option<string>>,
    role: Option<string>,
    lastSignedIn: Option<Option<int>>)

  predicate PatchIsEmpty(p: UserPatch) {
    p.name.None? && p.email.None? && p.loginMethod.None? && p.role.None? && p.lastSignedIn.None?
  }

  /** The user row after the given fields are copied into it; nothing else changes. */
  function ApplyPatch(u: User, p: UserPatch): (r: User)
    ensures r.id == u.id && r.department == u.department && r.isActive == u.isActive
    ensures r.clientId == u.clientId && r.permissions == u.permissions
    ensures p.name.Some? ==> r.name == p.name.value
    ensures p.name.None? ==> r.name == u.name
    ensures p.email.Some? ==> r.email == p.email.value
    ensures p.email.None? ==> r.email == u.email
    ensures p.loginMethod.Some? ==> r.loginMethod == p.loginMethod.value
    ensures p.loginMethod.None? ==> r.loginMethod == u.loginMethod
    ensures p.role.Some? ==> r.role == p.role.value
    ensures p.role.None? ==> r.role == u.role
    ensures p.lastSignedIn.Some? ==> r.lastSignedIn == p.lastSignedIn.value
    ensures p.lastSignedIn.None? ==> r.lastSignedIn == u.lastSignedIn
    ensures PatchIsEmpty(p) ==> r == u
  {
    u.(name := p.name.GetOr(u.name),
       email := p.email.GetOr(u.email),
       loginMethod := p.loginMethod.GetOr(u.loginMethod),
       role := p.role.GetOr(u.role),
       lastSignedIn := p.lastSignedIn.GetOr(u.lastSignedIn))
  }

  method UpdateUser(db: Database, id: string, p: UserPatch)
    modifies db`users
    ensures PatchIsEmpty(p) || id !in old(db.users) ==> db.users == old(db.users)
    ensures !PatchIsEmpty(p) && id in old(db.users) ==> db.users == old(db.users)[id := ApplyPatch(old(db.users)[id], p)]
  {
    if PatchIsEmpty(p) {
      return;
    }
    if id in db.users {
      db.users := db.users[id := ApplyPatch(db.users[id], p)];
    }
  }
}
