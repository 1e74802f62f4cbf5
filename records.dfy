/**
  The record parser: each parsed CSV row (a map from column header to cell text)
  becomes one goal entry, as in the `data.map(...)` of script.js.
 */
module Records {

  import opened Wrappers
  import opened Text

  /** One parsed CSV row: column header to cell text; a column may be absent. */
  type Row = map<string, string>

  const PlaceColumn: string := "Place or Region"
  const ActivityColumn: string := "Activity"
  const CategoryColumn: string := "Category"
  const ContinentColumn: string := "Continent"
  const CountryColumn: string := "Country"
  const TopicsColumn: string := "Topics"
  const CompletedColumn: string := "Completed"

  /** The text placed between place and activity: the characters the script literally contains there. */
  const Separator: string := " \U{00E2}\U{20AC}\U{201D} "

  /** The name of an entry that has neither a place nor an activity. */
  const Placeholder: string := "Unnamed"

  /** A goal entry; `None` stands for JavaScript's `null`. */
  datatype Entry = Entry(
    name: string,
    category: Option<string>,
    continent: Option<string>,
    country: Option<string>,
    topics: Option<string>,
    completed: bool)

  /** JavaScript truthiness of a nullable string: not `null` and not empty. */
  predicate Present(o: Option<string>)
  {
    o.Some? && o.value != ""
  }

  /** The cell text of `key`, with an absent column read as the empty text. */
  function RawField(row: Row, key: string): string
  {
    if key in row then row[key] else ""
  }

  /**
    `d[key]?.trim()` tested for truthiness: an absent column gives `undefined`,
    which behaves like the empty string.
   */
  function TrimmedField(row: Row, key: string): string
  {
    Trim(RawField(row, key))
  }

  /** `d[key] || null`: the cell text, untrimmed, or `None` when it is absent or empty. */
  function NullableField(row: Row, key: string): Option<string>
  {
    if key in row && row[key] != "" then Some(row[key]) else None
  }

  /** The display name built from the trimmed place and the trimmed activity. */
  function ComposeName(place: string, activity: string): (name: string)
    ensures name != ""
    ensures place != "" ==> |place| <= |name| && name[..|place|] == place
    ensures activity != "" ==> |activity| <= |name| && name[|name| - |activity|..] == activity
  {
    if place != "" && activity != "" then place + Separator + activity
    else if place != "" then place
    else if activity != "" then activity
    else Placeholder
  }

  /** The entry one row becomes. */
  function ToEntry(row: Row): Entry
  {
    Entry(
      ComposeName(TrimmedField(row, PlaceColumn), TrimmedField(row, ActivityColumn)),
      NullableField(row, CategoryColumn),
      NullableField(row, ContinentColumn),
      NullableField(row, CountryColumn),
      NullableField(row, TopicsColumn),
      IsCompleted(row))
  }

  /** `d.Completed === "yes"`: strict equality, so an absent column gives false. */
  function IsCompleted(row: Row): bool
  {
    CompletedColumn in row && row[CompletedColumn] == "yes"
  }

  /** `data.map(...)`: one entry per row, in row order. */
  function Entries(rows: seq<Row>): (entries: seq<Entry>)
    ensures |entries| == |rows|
    ensures forall i :: 0 <= i < |rows| ==> entries[i] == ToEntry(rows[i])
  {
    seq(|rows|, i requires 0 <= i < |rows| => ToEntry(rows[i]))
  }

  /** Neither end of `s` is whitespace (vacuous for the empty string). */
  predicate Tidy(s: string)
  {
    |s| > 0 ==> !IsWhitespace(s[0]) && !IsWhitespace(s[|s| - 1])
  }

  /** Composing two tidy parts gives a non-empty tidy name. */
  lemma ComposeNameTidy(place: string, activity: string)
    requires Tidy(place) && Tidy(activity)
    ensures Tidy(ComposeName(place, activity))
  {
    var name := ComposeName(place, activity);
    if place != "" && activity != "" {
      assert name[0] == place[0];
      assert name[|name| - 1] == activity[|activity| - 1];
    }
  }

  /**
    The four naming cases, stated on the raw cells: a cell counts as given when it is
    present and not blank. A name is never empty and never starts or ends with whitespace.
   */
  lemma NameRules(row: Row)
    ensures var p, a, name := RawField(row, PlaceColumn), RawField(row, ActivityColumn), ToEntry(row).name;
            (!IsBlank(p) && !IsBlank(a) ==> name == Trim(p) + Separator + Trim(a))
            && (!IsBlank(p) && IsBlank(a) ==> name == Trim(p))
            && (IsBlank(p) && !IsBlank(a) ==> name == Trim(a))
            && (IsBlank(p) && IsBlank(a) ==> name == Placeholder)
            && name != "" && Tidy(name)
  {
    var p, a := RawField(row, PlaceColumn), RawField(row, ActivityColumn);
    TrimEmptyIffBlank(p);
    TrimEmptyIffBlank(a);
    ComposeNameTidy(Trim(p), Trim(a));
  }

  /** A row whose place and activity are both missing or blank is named "Unnamed". */
  lemma UnnamedWhenBothMissing(row: Row)
    requires PlaceColumn !in row || IsBlank(row[PlaceColumn])
    requires ActivityColumn !in row || IsBlank(row[ActivityColumn])
    ensures ToEntry(row).name == Placeholder
  {
    TrimEmptyIffBlank(RawField(row, PlaceColumn));
    TrimEmptyIffBlank(RawField(row, ActivityColumn));
  }

  /**
    `completed` holds exactly when the Completed cell is the text "yes": the cell is
    neither trimmed nor case-folded, and an absent cell gives false.
   */
  lemma CompletedFlag(row: Row)
    ensures ToEntry(row).completed <==> RawField(row, CompletedColumn) == "yes"
  {
  }

  /** A padded or capitalised "yes", or no Completed cell at all, leaves the entry not completed. */
  lemma CompletedIsExact()
    ensures !IsCompleted(map[CompletedColumn := " yes"])
    ensures !IsCompleted(map[CompletedColumn := "Yes"])
    ensures !IsCompleted(map[])
    ensures IsCompleted(map[CompletedColumn := "yes"])
  {
    assert " yes" != "yes" by { assert " yes"[0] != "yes"[0]; }
    assert "Yes" != "yes" by { assert "Yes"[0] != "yes"[0]; }
  }

  /**
    The four groupings are `null` exactly when their cell is absent or empty; otherwise
    they hold the cell text untrimmed. So an entry's grouping is truthy iff it is not `null`.
   */
  lemma GroupingFields(row: Row)
    ensures var e := ToEntry(row);
            (e.category.Some? <==> RawField(row, CategoryColumn) != "")
            && (e.continent.Some? <==> RawField(row, ContinentColumn) != "")
            && (e.country.Some? <==> RawField(row, CountryColumn) != "")
            && (e.topics.Some? <==> RawField(row, TopicsColumn) != "")
            && (e.category.Some? ==> e.category.value == row[CategoryColumn])
            && (e.continent.Some? ==> e.continent.value == row[ContinentColumn])
            && (e.country.Some? ==> e.country.value == row[CountryColumn])
            && (e.topics.Some? ==> e.topics.value == row[TopicsColumn])
            && (Present(e.category) <==> e.category.Some?)
            && (Present(e.continent) <==> e.continent.Some?)
            && (Present(e.country) <==> e.country.Some?)
            && (Present(e.topics) <==> e.topics.Some?)
  {
  }

}
