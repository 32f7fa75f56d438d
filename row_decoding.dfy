/**
 * The value decoders of the loot parser (src/LootParser.ts): booleans,
 * number ranges, comma-separated lists, table-id suffixes, table condition
 * strings and loot-bucket tags.
 */
module RowDecoding {
  import opened LootModel
  import opened JsText

  /** A spreadsheet cell as the decoded JSON holds it: text or a number. */
  datatype RawValue = Str(text: string) | Num(number: int)

  /** JavaScript truthiness of a possibly missing cell: not undefined, "" or 0. */
  predicate Truthy(v: Option<RawValue>) {
    match v
    case None => false
    case Some(Str(s)) => s != ""
    case Some(Num(n)) => n != 0
  }

  /** Number.parseInt applied to a cell. */
  function CellInt(v: RawValue): int {
    match v
    case Str(s) => ParseInt(s)
    case Num(n) => n
  }

  /** The text of a cell used as a name: a number is spelled in decimal, a missing cell is empty. */
  function CellText(v: Option<RawValue>): string {
    match v
    case None => ""
    case Some(Str(s)) => s
    case Some(Num(n)) => IntToString(n)
  }

  /** The text of a cell that is only ever copied: present exactly when the cell holds text. */
  function CellString(v: Option<RawValue>): Option<string> {
    match v
    case Some(Str(s)) => Some(s)
    case _ => None
  }

  /** Booleans are stored as the strings "TRUE" and "FALSE"; anything else reads as false. */
  function ParseBoolean(rawValue: Option<RawValue>): (b: bool)
    ensures b <==> rawValue == Some(Str("TRUE"))
  {
    rawValue == Some(Str("TRUE"))
  }

  /**
   * A number range written "100" or "100-150" (split at the first dash), or a
   * number. A missing, empty or zero cell gives {0, 0}.
   */
  function ParseRange(range: Option<RawValue>): (r: NumberRange)
    ensures !Truthy(range) ==> r == NumberRange(0, 0)
    ensures range.Some? && range.value.Num? ==> r == NumberRange(range.value.number, range.value.number)
    ensures range.Some? && range.value.Str? && '-' !in range.value.text ==> r.IsSingle()
  {
    if !Truthy(range) then NumberRange(0, 0)
    else
      match range.value
      case Num(n) => NumberRange(n, n)
      case Str(s) =>
        var dashIndex := IndexOfChar(s, '-');
        if dashIndex < 0 then NumberRange(ParseInt(s), ParseInt(s))
        else NumberRange(ParseInt(s[..dashIndex]), ParseInt(s[dashIndex + 1..]))
  }

  /** A non-empty text without a dash gives both ends as the text read with parseInt. */
  lemma ParseRangeOfDashFree(s: string)
    requires s != "" && IndexOfChar(s, '-') < 0
    ensures ParseRange(Some(Str(s))) == NumberRange(ParseInt(s), ParseInt(s))
  {
    assert Truthy(Some(Str(s)));
  }

  /**
   * A text with a dash is split at its first dash, each side read with
   * parseInt: any such text is `low + "-" + high` with no dash in `low`.
   */
  lemma ParseRangeOfDashed(low: string, high: string)
    requires '-' !in low
    ensures ParseRange(Some(Str(low + "-" + high))) == NumberRange(ParseInt(low), ParseInt(high))
  {
    var s := low + "-" + high;
    assert s == low + ("-" + high);
    IndexOfCharAfter(low, "-" + high, '-');
    assert s[..|low|] == low;
    assert s[|low| + 1..] == high;
  }

  /** How a range is written in the data sheets. */
  function FormatRange(r: NumberRange): string {
    if r.Low == r.High then IntToString(r.Low) else IntToString(r.Low) + "-" + IntToString(r.High)
  }

  /** Reading a written range gives the range back, provided its lower end has no sign. */
  lemma ParseRangeOfFormatted(r: NumberRange)
    requires 0 <= r.Low
    ensures ParseRange(Some(Str(FormatRange(r)))) == r
  {
    if r.Low == r.High {
      ParseRangeOfSingle(r.Low);
    } else {
      ParseRangeOfPair(r.Low, r.High);
    }
  }

  lemma ParseRangeOfSingle(n: nat)
    ensures ParseRange(Some(Str(IntToString(n)))) == NumberRange(n, n)
  {
    var s := NatToString(n);
    NoSignInDigits(s);
    assert IndexOfChar(s, '-') == -1;
    ParseIntOfIntToString(n);
  }

  lemma ParseRangeOfPair(low: nat, high: int)
    ensures ParseRange(Some(Str(IntToString(low) + "-" + IntToString(high)))) == NumberRange(low, high)
  {
    NoSignInDigits(NatToString(low));
    ParseRangeOfDashed(IntToString(low), IntToString(high));
    ParseIntOfIntToString(low);
    ParseIntOfIntToString(high);
  }

  lemma NoSignInDigits(s: string)
    requires AllDigits(s)
    ensures '-' !in s && ':' !in s && ',' !in s
  {
  }

  /** Every piece trimmed. */
  function TrimAll(parts: seq<string>): (r: seq<string>)
    ensures |r| == |parts|
    ensures forall k :: 0 <= k < |parts| ==> r[k] == Trim(parts[k])
  {
    seq(|parts|, k requires 0 <= k < |parts| => Trim(parts[k]))
  }

  /** The non-empty pieces, in order. */
  function NonEmpty(parts: seq<string>): (r: seq<string>)
    ensures forall k :: 0 <= k < |r| ==> r[k] != []
    ensures forall x :: x in r <==> x in parts && x != []
    ensures (forall k :: 0 <= k < |parts| ==> parts[k] != []) ==> r == parts
  {
    if parts == [] then []
    else
      var last := parts[|parts| - 1];
      assert parts == parts[..|parts| - 1] + [last];
      NonEmpty(parts[..|parts| - 1]) + (if last != [] then [last] else [])
  }

  /** The trimmed pieces of a comma-separated text that are not empty, in order. */
  function ListItems(text: string): (r: seq<string>)
    ensures forall k :: 0 <= k < |r| ==> r[k] != [] && IsTrimmed(r[k])
  {
    var pieces := TrimAll(Split(text, ','));
    NonEmptyOfTrimmed(pieces);
    NonEmpty(pieces)
  }

  /** Dropping empty pieces keeps every remaining piece trimmed. */
  lemma {:induction false} NonEmptyOfTrimmed(parts: seq<string>)
    requires forall k :: 0 <= k < |parts| ==> IsTrimmed(parts[k])
    ensures forall k :: 0 <= k < |NonEmpty(parts)| ==> IsTrimmed(NonEmpty(parts)[k])
  {
    if parts != [] {
      var init := parts[..|parts| - 1];
      assert forall k :: 0 <= k < |init| ==> init[k] == parts[k];
      NonEmptyOfTrimmed(init);
    }
  }

  /**
   * A comma-separated list: missing or blank text gives the empty list,
   * otherwise the trimmed pieces that are not empty, in order.
   */
  function ParseList(list: Option<string>): (r: seq<string>)
    ensures forall k :: 0 <= k < |r| ==> r[k] != [] && IsTrimmed(r[k])
    ensures list.None? ==> r == []
  {
    if list.None? || list.value == "" then []
    else if |Trim(list.value)| == 0 then []
    else ListItems(list.value)
  }

  /** Blank text (empty or only whitespace) is the empty list. */
  lemma ParseListOfBlank(text: string)
    requires Trim(text) == []
    ensures ParseList(Some(text)) == []
  {
  }

  /** An entry a written list can hold: non-empty, trimmed and without a comma. */
  predicate ListEntry(e: string) {
    e != [] && IsTrimmed(e) && ',' !in e
  }

  /** Reading a written list gives the list back when every entry is a list entry. */
  lemma ParseListOfJoined(entries: seq<string>)
    requires forall k :: 0 <= k < |entries| ==> ListEntry(entries[k])
    ensures ParseList(Some(Join(entries, ','))) == entries
  {
    if entries != [] {
      var s := Join(entries, ',');
      assert ListEntry(entries[0]);
      JoinNotBlank(entries, ',');
      ParseListOfNonBlank(s);
      SplitJoin(entries, ',');
      ListEntriesKept(entries);
    } else {
      assert Join(entries, ',') == "";
      assert ParseList(Some("")) == [];
    }
  }

  /**
   * Reading a written list whose pieces trim to list entries gives those
   * entries, in order and each once.
   */
  lemma ParseListOfTrimmedTo(pieces: seq<string>, entries: seq<string>)
    requires |pieces| == |entries|
    requires forall k :: 0 <= k < |entries| ==> ListEntry(entries[k]) && ',' !in pieces[k] && Trim(pieces[k]) == entries[k]
    ensures ParseList(Some(Join(pieces, ','))) == entries
  {
    if entries != [] {
      var s := Join(pieces, ',');
      JoinOfTrimmedNotBlank(pieces, entries[0]);
      ParseListOfNonBlank(s);
      SplitJoin(pieces, ',');
      TrimAllTo(pieces, entries);
      assert forall k :: 0 <= k < |entries| ==> entries[k] != [];
      assert NonEmpty(TrimAll(Split(s, ','))) == entries;
    } else {
      assert Join(pieces, ',') == "";
    }
  }

  lemma TrimAllTo(pieces: seq<string>, entries: seq<string>)
    requires |pieces| == |entries|
    requires forall k :: 0 <= k < |entries| ==> Trim(pieces[k]) == entries[k]
    ensures TrimAll(pieces) == entries
  {
    var t := TrimAll(pieces);
    assert |t| == |entries|;
    forall k | 0 <= k < |t|
      ensures t[k] == entries[k]
    {
    }
  }

  /** A joined list whose first piece trims to a non-empty text is not blank. */
  lemma JoinOfTrimmedNotBlank(pieces: seq<string>, first: string)
    requires |pieces| >= 1 && Trim(pieces[0]) == first && first != []
    ensures Join(pieces, ',') != "" && Trim(Join(pieces, ',')) != []
  {
    var s := Join(pieces, ',');
    JoinStartsWithFirst(pieces, ',');
    var i := |pieces[0]| - |TrimStart(pieces[0])|;
    TrimKeepsInfix(pieces[0]);
    assert pieces[0][i] == first[0];
    assert s[i] == s[..|pieces[0]|][i];
    NotBlankOfNonWhite(s, i);
  }

  /** A text with a character that is not white space is not blank. */
  lemma NotBlankOfNonWhite(s: string, j: nat)
    requires j < |s| && !IsWhitespace(s[j])
    ensures Trim(s) != []
  {
    TrimKeepsInfix(s);
  }

  /** White space around the entries of a written list is dropped when it is read. */
  lemma ParseListOfPadded(before: seq<string>, entries: seq<string>, after: seq<string>)
    requires |before| == |entries| == |after|
    requires forall k :: 0 <= k < |entries| ==> ListEntry(entries[k])
    requires forall k, j :: 0 <= k < |before| && 0 <= j < |before[k]| ==> IsWhitespace(before[k][j])
    requires forall k, j :: 0 <= k < |after| && 0 <= j < |after[k]| ==> IsWhitespace(after[k][j])
    ensures ParseList(Some(Join(seq(|entries|, k requires 0 <= k < |entries| => before[k] + entries[k] + after[k]), ','))) == entries
  {
    var pieces := seq(|entries|, k requires 0 <= k < |entries| => before[k] + entries[k] + after[k]);
    forall k | 0 <= k < |entries|
      ensures ',' !in pieces[k] && Trim(pieces[k]) == entries[k]
    {
      TrimOfPadded(before[k], entries[k], after[k]);
      assert !IsWhitespace(',');
      assert ',' !in before[k] && ',' !in after[k];
      assert pieces[k] == before[k] + entries[k] + after[k];
    }
    ParseListOfTrimmedTo(pieces, entries);
  }

  /** Trimming and dropping empty pieces leaves list entries as they are. */
  lemma ListEntriesKept(entries: seq<string>)
    requires forall k :: 0 <= k < |entries| ==> ListEntry(entries[k])
    ensures NonEmpty(TrimAll(entries)) == entries
  {
    TrimAllOfTrimmed(entries);
  }

  lemma ParseListOfNonBlank(t: string)
    requires t != "" && Trim(t) != []
    ensures ParseList(Some(t)) == NonEmpty(TrimAll(Split(t, ',')))
  {
  }

  lemma TrimAllOfTrimmed(parts: seq<string>)
    requires forall k :: 0 <= k < |parts| ==> IsTrimmed(parts[k])
    ensures TrimAll(parts) == parts
  {
  }

  /** A joined list whose first entry is trimmed and non-empty is not blank. */
  lemma JoinNotBlank(parts: seq<string>, separator: char)
    requires |parts| >= 1 && parts[0] != [] && IsTrimmed(parts[0])
    ensures Join(parts, separator) != [] && Trim(Join(parts, separator)) != []
  {
    var s := Join(parts, separator);
    JoinStartsWithFirst(parts, separator);
    assert s[0] == s[..|parts[0]|][0] == parts[0][0];
    assert TrimStart(s) == s;
  }

  lemma JoinStartsWithFirst(parts: seq<string>, separator: char)
    requires |parts| >= 1
    ensures |Join(parts, separator)| >= |parts[0]|
    ensures Join(parts, separator)[..|parts[0]|] == parts[0]
  {
  }

  /** The base name of a table id: the id without its last |suffix| characters. */
  function RemoveSuffix(lootTableName: string, suffix: string): (r: string)
    ensures EndsWith(lootTableName, suffix) ==> r + suffix == lootTableName
  {
    if |suffix| <= |lootTableName| then lootTableName[..|lootTableName| - |suffix|] else ""
  }

  lemma RemoveSuffixOfAppended(name: string, suffix: string)
    ensures RemoveSuffix(name + suffix, suffix) == name
  {
    assert (name + suffix)[..|name|] == name;
  }

  /** How a token of a table's condition string is interpreted. */
  datatype TokenKind = LevelToken | EliteToken | GlobalModToken | FishToken | IgnoredToken | NameToken

  function KindOf(token: string): TokenKind {
    if token == "EnemyLevel" || token == "Level" || token == "MinPOIContLevel" then LevelToken
    else if token == "Common" || token == "Elite" then EliteToken
    else if token == "GlobalMod" then GlobalModToken
    else if token == "Fresh" || token == "Salt" then FishToken
    else if token == "Named" || token == "FishRarity" || token == "FishSize" then IgnoredToken
    else NameToken
  }

  /** The last token of the given kind. */
  function LastOfKind(tokens: seq<string>, kind: TokenKind): (r: Option<string>)
    ensures r.Some? ==> r.value in tokens && KindOf(r.value) == kind
    ensures r.None? ==> forall k :: 0 <= k < |tokens| ==> KindOf(tokens[k]) != kind
  {
    if tokens == [] then None
    else if KindOf(tokens[|tokens| - 1]) == kind then Some(tokens[|tokens| - 1])
    else LastOfKind(tokens[..|tokens| - 1], kind)
  }

  /** The tokens of the given kind, in order. */
  function OfKind(tokens: seq<string>, kind: TokenKind): (r: seq<string>)
    ensures forall x :: x in r <==> x in tokens && KindOf(x) == kind
  {
    if tokens == [] then []
    else
      var last := tokens[|tokens| - 1];
      assert tokens == tokens[..|tokens| - 1] + [last];
      OfKind(tokens[..|tokens| - 1], kind) + (if KindOf(last) == kind then [last] else [])
  }

  /**
   * Conditions as the parser builds them: the public conditions plus the
   * level kind the probability row holds instead of roll thresholds.
   */
  datatype InternalConditions = InternalConditions(Public: Conditions, probabilityType: Option<string>)

  const EmptyInternalConditions := InternalConditions(NoConditions, None)

  /**
   * The conditions a list of tokens stands for: the last Elite/Common token
   * decides Elite, the last Fresh/Salt token decides the water, GlobalMod
   * sets the global modifier, the last level token names the probability
   * type, and every token that is no keyword is a name, in order.
   */
  function ConditionsOfTokens(tokens: seq<string>): InternalConditions {
    InternalConditions(
      Conditions(
        match LastOfKind(tokens, EliteToken) { case None => None case Some(t) => Some(t == "Elite") },
        match LastOfKind(tokens, FishToken) { case None => None case Some(t) => Some(Fishing(t == "Salt")) },
        if LastOfKind(tokens, GlobalModToken).Some? then Some(true) else None,
        NoLevels,
        OfKind(tokens, NameToken)),
      LastOfKind(tokens, LevelToken))
  }

  lemma LastOfKindSnoc(tokens: seq<string>, t: string, kind: TokenKind)
    ensures LastOfKind(tokens + [t], kind) == if KindOf(t) == kind then Some(t) else LastOfKind(tokens, kind)
  {
    assert (tokens + [t])[..|tokens|] == tokens;
  }

  lemma OfKindSnoc(tokens: seq<string>, t: string, kind: TokenKind)
    ensures OfKind(tokens + [t], kind) == OfKind(tokens, kind) + (if KindOf(t) == kind then [t] else [])
  {
    assert (tokens + [t])[..|tokens|] == tokens;
  }

  /** What one more token does to the conditions of a token list. */
  lemma ConditionsOfTokensSnoc(tokens: seq<string>, t: string)
    ensures var before, after := ConditionsOfTokens(tokens), ConditionsOfTokens(tokens + [t]);
      match KindOf(t)
      case LevelToken => after == before.(probabilityType := Some(t))
      case EliteToken => after == before.(Public := before.Public.(Elite := Some(t == "Elite")))
      case GlobalModToken => after == before.(Public := before.Public.(GlobalMod := Some(true)))
      case FishToken => after == before.(Public := before.Public.(Fishing := Some(Fishing(t == "Salt"))))
      case IgnoredToken => after == before
      case NameToken => after == before.(Public := before.Public.(Named := before.Public.Named + [t]))
  {
    LastOfKindSnoc(tokens, t, LevelToken);
    LastOfKindSnoc(tokens, t, EliteToken);
    LastOfKindSnoc(tokens, t, GlobalModToken);
    LastOfKindSnoc(tokens, t, FishToken);
    OfKindSnoc(tokens, t, NameToken);
  }

  /** The conditions of a table's condition string: none when it is missing or empty. */
  function TableConditions(tableConditions: Option<string>): InternalConditions {
    if tableConditions.None? || tableConditions.value == "" then EmptyInternalConditions
    else ConditionsOfTokens(Split(tableConditions.value, ','))
  }

  /** Parses a table's condition string, token by token. */
  method ParseConditions(tableConditions: Option<string>) returns (conditions: InternalConditions)
    ensures conditions == TableConditions(tableConditions)
  {
    conditions := EmptyInternalConditions;
    if tableConditions.None? || tableConditions.value == "" {
      return;
    }
    var tokens := Split(tableConditions.value, ',');
    for i := 0 to |tokens|
      invariant conditions == ConditionsOfTokens(tokens[..i])
    {
      var condition := tokens[i];
      var c := conditions.Public;
      if condition == "EnemyLevel" || condition == "Level" || condition == "MinPOIContLevel" {
        conditions := conditions.(probabilityType := Some(condition));
      } else if condition == "Common" || condition == "Elite" {
        conditions := conditions.(Public := c.(Elite := Some(condition == "Elite")));
      } else if condition == "GlobalMod" {
        conditions := conditions.(Public := c.(GlobalMod := Some(true)));
      } else if condition == "Fresh" || condition == "Salt" {
        conditions := conditions.(Public := c.(Fishing := Some(Fishing(condition == "Salt"))));
      } else if condition == "Named" || condition == "FishRarity" || condition == "FishSize" {
        // not evaluated
      } else {
        conditions := conditions.(Public := c.(Named := c.Named + [condition]));
      }
      ConditionsOfTokensSnoc(tokens[..i], condition);
      assert tokens[..i + 1] == tokens[..i] + [condition];
    }
    assert tokens[..|tokens|] == tokens;
  }

  /** The name of a loot-bucket tag: the text before its first colon. */
  function TagName(tag: string): string {
    Split(tag, ':')[0]
  }

  /** The value of a loot-bucket tag: the text between its first and second colon, if any. */
  function TagValue(tag: string): Option<RawValue> {
    var parts := Split(tag, ':');
    if |parts| >= 2 then Some(Str(parts[1])) else None
  }

  predicate IsLevelTag(tag: string) {
    TagName(tag) == "MinContLevel" || TagName(tag) == "Level"
  }

  /** The last tag with the given name. */
  function LastTagNamed(tags: seq<string>, name: string): Option<string> {
    if tags == [] then None
    else if TagName(tags[|tags| - 1]) == name then Some(tags[|tags| - 1])
    else LastTagNamed(tags[..|tags| - 1], name)
  }

  /** The tags that are not level tags, whole and in order. */
  function NameTags(tags: seq<string>): seq<string> {
    if tags == [] then []
    else
      var last := tags[|tags| - 1];
      NameTags(tags[..|tags| - 1]) + (if IsLevelTag(last) then [] else [last])
  }

  /** The last tag with a name is found exactly when some tag has that name, and it has that name. */
  lemma {:induction false} LastTagNamedFinds(tags: seq<string>, name: string)
    ensures var r := LastTagNamed(tags, name);
      (r.Some? ==> r.value in tags && TagName(r.value) == name)
      && (r.None? <==> forall k :: 0 <= k < |tags| ==> TagName(tags[k]) != name)
  {
    if tags != [] {
      var last := tags[|tags| - 1];
      if TagName(last) != name {
        var init := tags[..|tags| - 1];
        LastTagNamedFinds(init, name);
        assert LastTagNamed(tags, name) == LastTagNamed(init, name);
        assert tags == init + [last];
      }
    }
  }

  /** The name tags are exactly the tags that are not level tags. */
  lemma {:induction false} NameTagsMembers(tags: seq<string>)
    ensures forall x :: x in NameTags(tags) <==> x in tags && !IsLevelTag(x)
  {
    if tags != [] {
      var init := tags[..|tags| - 1];
      NameTagsMembers(init);
      assert tags == init + [tags[|tags| - 1]];
    }
  }

  /**
   * Loot-bucket tags give only level and name conditions: a content or
   * character level range exactly when a MinContLevel or Level tag is
   * present, and a name for every other tag.
   */
  lemma TagConditionsMeaning(tags: seq<string>)
    ensures var c := TagConditions(tags);
      c.Elite.None? && c.Fishing.None? && c.GlobalMod.None? && c.Levels.Enemy.None?
      && (c.Levels.Character.None? <==> forall k :: 0 <= k < |tags| ==> TagName(tags[k]) != "Level")
      && (c.Levels.Content.None? <==> forall k :: 0 <= k < |tags| ==> TagName(tags[k]) != "MinContLevel")
      && (forall x :: x in c.Named <==> x in tags && !IsLevelTag(x))
  {
    LastTagNamedFinds(tags, "Level");
    LastTagNamedFinds(tags, "MinContLevel");
    NameTagsMembers(tags);
  }

  function LevelOfTag(tag: Option<string>): Option<NumberRange> {
    match tag
    case None => None
    case Some(t) => Some(ParseRange(TagValue(t)))
  }

  /**
   * The conditions loot-bucket tags stand for: the last MinContLevel tag
   * gives the content level range, the last Level tag the character level
   * range, and every other tag is a name.
   */
  function TagConditions(tags: seq<string>): Conditions {
    Conditions(None, None, None,
      Levels(LevelOfTag(LastTagNamed(tags, "Level")), LevelOfTag(LastTagNamed(tags, "MinContLevel")), None),
      NameTags(tags))
  }

  /** One more tag sets the level it names or adds itself to the names. */
  lemma TagConditionsSnoc(tags: seq<string>, tag: string)
    ensures var c, name := TagConditions(tags), TagName(tag);
      TagConditions(tags + [tag]) ==
        if name == "MinContLevel" then c.(Levels := c.Levels.(Content := Some(ParseRange(TagValue(tag)))))
        else if name == "Level" then c.(Levels := c.Levels.(Character := Some(ParseRange(TagValue(tag)))))
        else c.(Named := c.Named + [tag])
  {
    assert (tags + [tag])[..|tags|] == tags;
  }

  /** Parses loot-bucket tags, tag by tag. */
  method ParseTags(tags: seq<string>) returns (conditions: Conditions)
    ensures conditions == TagConditions(tags)
  {
    conditions := NoConditions;
    for i := 0 to |tags|
      invariant conditions == TagConditions(tags[..i])
    {
      var tag := tags[i];
      var parts := Split(tag, ':');
      var name := parts[0];
      var value := if |parts| >= 2 then Some(Str(parts[1])) else None;
      assert tags[..i + 1] == tags[..i] + [tag];
      TagConditionsSnoc(tags[..i], tag);
      assert name == TagName(tag) && value == TagValue(tag);
      if name == "MinContLevel" {
        conditions := conditions.(Levels := conditions.Levels.(Content := Some(ParseRange(value))));
      } else if name == "Level" {
        conditions := conditions.(Levels := conditions.Levels.(Character := Some(ParseRange(value))));
      } else {
        conditions := conditions.(Named := conditions.Named + [tag]);
      }
    }
    assert tags[..|tags|] == tags;
  }

  /** A level tag written in the data sheet reads back as its range. */
  lemma LevelTagOfFormatted(r: NumberRange)
    requires 0 <= r.Low
    ensures TagConditions(["Level:" + FormatRange(r)]).Levels.Character == Some(r)
    ensures TagConditions(["MinContLevel:" + FormatRange(r)]).Levels.Content == Some(r)
  {
    var f := FormatRange(r);
    NoColonInIntToString(r.Low);
    NoColonInIntToString(r.High);
    assert ':' !in f;
    assert "Level:" + f == Join(["Level", f], ':');
    assert "MinContLevel:" + f == Join(["MinContLevel", f], ':');
    SplitJoin(["Level", f], ':');
    SplitJoin(["MinContLevel", f], ':');
    ParseRangeOfFormatted(r);
  }

  lemma NoColonInIntToString(n: int)
    ensures ':' !in IntToString(n)
  {
    NoSignInDigits(NatToString(if n < 0 then -n else n));
  }
}
