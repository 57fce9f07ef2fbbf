/**
 * `getLiteModelId`: the cheap model used for the search-planning call. The
 * configured model list is parsed (`name=alias` entries, only the name kept),
 * then the keywords are tried in rank order and the first model whose
 * lower-cased id contains the best-ranked matching keyword is chosen; when
 * no keyword matches, the first model is.
 */
module LiteModel {
  import opened Wrappers
  import opened Strings
  import opened Config

  /** Returned when no model list is configured at all. */
  const DefaultLiteModel := "gemini-2.5-flash-lite"

  /** The keywords, best first. */
  const LiteKeywords: seq<string> := [
    "deepseek-v", "qwen3-next", "-oss-", "-mini", "qwen3-max", "-k2",
    "-nano", "-flash", "-lite", "-instruct", "-fast", "-dash",
    "-alpha", "-haiku", "-4o", "-r1", "-air", "gpt"
  ]

  /** The model id an entry names: the text before its first `=`, trimmed. */
  function EntryName(entry: string): (name: string)
    ensures '=' !in name
  {
    Trim(Split(entry, '=')[0])
  }

  /** The name is taken from the entry, so an entry without a comma yields a name without one. */
  lemma EntryNameCommaFree(entry: string)
    requires ',' !in entry
    ensures ',' !in EntryName(entry)
  {
    var head := Split(entry, '=')[0];
    TrimIsSlice(head);
    JoinSplit(entry, '=');
    JoinHead(Split(entry, '='), '=');
  }

  /** The first piece of a list is a prefix of its join. */
  lemma JoinHead(parts: seq<string>, c: char)
    requires |parts| >= 1
    ensures forall x :: x in parts[0] ==> x in Join(parts, c)
  {
    if |parts| > 1 {
      assert Join(parts, c) == parts[0] + ([c] + Join(parts[1..], c));
    }
  }

  /** `.filter(i => i)`: the non-empty strings, in order. */
  function DropEmpty(xs: seq<string>): (ys: seq<string>)
    ensures |ys| <= |xs|
    ensures forall y :: y in ys ==> y in xs && y != []
    ensures forall x :: x in xs && x != [] ==> x in ys
  {
    if xs == [] then []
    else if xs[0] == [] then DropEmpty(xs[1..])
    else [xs[0]] + DropEmpty(xs[1..])
  }

  /** An empty head is filtered away. */
  lemma DropEmptySkip(xs: seq<string>)
    ensures DropEmpty([""] + xs) == DropEmpty(xs)
  {
    assert ([""] + xs)[1..] == xs;
  }

  /** `xs.map(f)`. */
  function Map(f: string -> string, xs: seq<string>): (ys: seq<string>)
    ensures |ys| == |xs|
  {
    seq(|xs|, k requires 0 <= k < |xs| => f(xs[k]))
  }

  /** `name` is the name of one of the pieces. */
  ghost predicate NameOfSome(name: string, pieces: seq<string>)
  {
    exists i :: 0 <= i < |pieces| && EntryName(pieces[i]) == name
  }

  /**
   * The names of the comma-separated pieces: empty pieces dropped, each
   * piece cut to its name, empty names dropped. Every name is non-empty and
   * holds no `=` and is the name of some piece; when no piece holds a comma,
   * no name does.
   */
  function ModelNames(pieces: seq<string>): (names: seq<string>)
    ensures forall name :: name in names ==> name != [] && '=' !in name
    ensures forall name :: name in names ==> NameOfSome(name, pieces)
    ensures (forall p :: p in pieces ==> ',' !in p) ==> forall name :: name in names ==> ',' !in name
  {
    var kept := DropEmpty(pieces);
    var mapped := Map(EntryName, kept);
    assert forall name :: name in mapped ==> NameOfSome(name, pieces) by {
      forall name | name in mapped ensures NameOfSome(name, pieces) {
        var k :| 0 <= k < |kept| && mapped[k] == name;
        assert kept[k] in kept;
        var i :| 0 <= i < |pieces| && pieces[i] == kept[k];
        assert EntryName(pieces[i]) == name;
      }
    }
    assert forall name :: name in mapped ==> '=' !in name;
    assert (forall p :: p in pieces ==> ',' !in p) ==> forall name :: name in mapped ==> ',' !in name by {
      if forall p :: p in pieces ==> ',' !in p {
        forall k | 0 <= k < |kept| ensures ',' !in mapped[k] {
          EntryNameCommaFree(kept[k]);
        }
      }
    }
    DropEmpty(mapped)
  }

  /** The model list as `getLiteModelId` reads it. */
  function ParseModelIds(modelIds: string): (models: seq<string>)
    ensures forall k :: 0 <= k < |models| ==> models[k] != [] && '=' !in models[k] && ',' !in models[k]
    ensures forall m :: m in models ==> NameOfSome(m, Split(modelIds, ','))
  {
    var models := ModelNames(Split(modelIds, ','));
    assert forall k :: 0 <= k < |models| ==> models[k] in models;
    models
  }

  /** No name is lost: a non-empty piece with a non-empty name contributes that name. */
  lemma ModelNamesComplete(pieces: seq<string>, i: int)
    requires 0 <= i < |pieces| && pieces[i] != [] && EntryName(pieces[i]) != []
    ensures EntryName(pieces[i]) in ModelNames(pieces)
  {
    var kept := DropEmpty(pieces);
    var mapped := Map(EntryName, kept);
    assert pieces[i] in pieces;
    var k :| 0 <= k < |kept| && kept[k] == pieces[i];
    assert mapped[k] == EntryName(pieces[i]);
  }

  /** Every non-empty entry of the configured list with a non-empty name is offered. */
  lemma ParseModelIdsComplete(modelIds: string, i: int)
    requires 0 <= i < |Split(modelIds, ',')|
    requires Split(modelIds, ',')[i] != [] && EntryName(Split(modelIds, ',')[i]) != []
    ensures EntryName(Split(modelIds, ',')[i]) in ParseModelIds(modelIds)
  {
    ModelNamesComplete(Split(modelIds, ','), i);
  }

  /** Pieces that each name a non-empty name give exactly those names, in order. */
  lemma {:induction false} NamesOfPieces(pieces: seq<string>, names: seq<string>)
    requires |pieces| == |names|
    requires forall k :: 0 <= k < |pieces| ==> pieces[k] != [] && names[k] != [] && EntryName(pieces[k]) == names[k]
    ensures ModelNames(pieces) == names
  {
    if pieces != [] {
      var ps, ns := pieces[1..], names[1..];
      forall k | 0 <= k < |ps|
        ensures ps[k] != [] && ns[k] != [] && EntryName(ps[k]) == ns[k]
      {
        assert ps[k] == pieces[k + 1] && ns[k] == names[k + 1];
      }
      NamesOfPieces(ps, ns);
      ModelNamesCons(pieces, names[0]);
      assert [names[0]] + ns == names;
    }
  }

  /** White space holds neither separator. */
  lemma NoSeparatorInSpace(s: string)
    requires AllSpace(s)
    ensures '=' !in s && ',' !in s
  {
    forall i | 0 <= i < |s| ensures s[i] != '=' && s[i] != ',' {
      assert IsJsSpace(s[i]);
    }
  }

  /** White space around the name of an entry, before its `=`, is trimmed away. */
  lemma EntryNameSpaced(before: string, name: string, after: string, alias: string)
    requires Clean(name) && '=' !in name
    requires AllSpace(before) && AllSpace(after)
    ensures EntryName(before + name + after + "=" + alias) == name
  {
    var head := before + name + after;
    NoSeparatorInSpace(before);
    NoSeparatorInSpace(after);
    assert '=' !in head;
    SplitFirstPiece(head, alias, '=');
    assert head + "=" + alias == head + ['='] + alias;
    TrimEnds(name);
    TrimPadded(before, name, after);
  }

  /** The entry `name = alias`, with white space around the name. */
  function SpacedEntry(before: string, name: string, after: string, alias: string): string
  {
    before + name + after + "=" + alias
  }

  /** A spaced entry of a comma-free name and alias is non-empty, comma-free, and names its name. */
  lemma SpacedEntryNames(before: string, name: string, after: string, alias: string)
    requires Clean(name) && '=' !in name && ',' !in name
    requires AllSpace(before) && AllSpace(after) && ',' !in alias
    ensures var e := SpacedEntry(before, name, after, alias);
      e != [] && ',' !in e && EntryName(e) == name
  {
    NoSeparatorInSpace(before);
    NoSeparatorInSpace(after);
    EntryNameSpaced(before, name, after, alias);
  }

  /** The entries `name = alias` of a list, with white space around the names. */
  function SpacedEntries(before: seq<string>, names: seq<string>, after: seq<string>, aliases: seq<string>): (entries: seq<string>)
    requires |before| == |names| == |after| == |aliases|
    ensures |entries| == |names|
  {
    seq(|names|, k requires 0 <= k < |names| => SpacedEntry(before[k], names[k], after[k], aliases[k]))
  }

  /**
   * A list written as `name = alias` entries with white space around the
   * names (names clean and free of `,` and `=`, aliases free of `,`) parses to
   * exactly the names, in order.
   */
  lemma ParseSpacedEntries(before: seq<string>, names: seq<string>, after: seq<string>, aliases: seq<string>)
    requires |names| >= 1 && |before| == |names| == |after| == |aliases|
    requires forall k :: 0 <= k < |names| ==> Clean(names[k]) && '=' !in names[k] && ',' !in names[k]
    requires forall k :: 0 <= k < |names| ==> AllSpace(before[k]) && AllSpace(after[k]) && ',' !in aliases[k]
    ensures ParseModelIds(Join(SpacedEntries(before, names, after, aliases), ',')) == names
  {
    var entries := SpacedEntries(before, names, after, aliases);
    forall k | 0 <= k < |names|
      ensures ',' !in entries[k]
      ensures entries[k] != [] && EntryName(entries[k]) == names[k]
    {
      SpacedEntryNames(before[k], names[k], after[k], aliases[k]);
    }
    SplitJoin(entries, ',');
    NamesOfPieces(entries, names);
  }

  /** `name=alias` keeps the name; a bare entry is its own name. */
  lemma EntryNameOfLabelled(name: string, alias: string)
    requires Clean(name) && '=' !in name
    ensures EntryName(name + "=" + alias) == name
    ensures EntryName(name) == name
  {
    SplitFirstPiece(name, alias, '=');
    assert name + "=" + alias == name + ['='] + alias;
    SplitNoSeparator(name, '=');
  }

  /** An entry for every name, with its alias when it has one. */
  function Entries(names: seq<string>, aliases: seq<Option<string>>): (entries: seq<string>)
    requires |aliases| == |names|
    ensures |entries| == |names|
  {
    if names == [] then []
    else
      var e := match aliases[0] case None => names[0] case Some(l) => names[0] + "=" + l;
      [e] + Entries(names[1..], aliases[1..])
  }

  /**
   * Round trip: a list written as `name` or `name=alias` entries separated by
   * commas (names clean and free of `,` and `=`, aliases free of `,`) parses
   * to exactly the names, in order.
   */
  lemma {:induction false} ParseEntries(names: seq<string>, aliases: seq<Option<string>>)
    requires |names| >= 1 && |aliases| == |names|
    requires forall k :: 0 <= k < |names| ==> Clean(names[k]) && '=' !in names[k] && ',' !in names[k]
    requires forall k :: 0 <= k < |aliases| && aliases[k].Some? ==> ',' !in aliases[k].value
    ensures ParseModelIds(Join(Entries(names, aliases), ',')) == names
  {
    var entries := Entries(names, aliases);
    EntriesCommaFree(names, aliases);
    SplitJoin(entries, ',');
    NamesOfEntries(names, aliases);
  }

  /** No entry holds a comma. */
  lemma {:induction false} EntriesCommaFree(names: seq<string>, aliases: seq<Option<string>>)
    requires |aliases| == |names|
    requires forall k :: 0 <= k < |names| ==> ',' !in names[k]
    requires forall k :: 0 <= k < |aliases| && aliases[k].Some? ==> ',' !in aliases[k].value
    ensures forall k :: 0 <= k < |names| ==> ',' !in Entries(names, aliases)[k]
  {
    if names != [] {
      EntriesCommaFree(names[1..], aliases[1..]);
      var entries := Entries(names, aliases);
      forall k | 0 <= k < |names| ensures ',' !in entries[k] {
        if k > 0 {
          assert entries[k] == Entries(names[1..], aliases[1..])[k - 1];
        }
      }
    }
  }

  /** The names step recovers the names from their entries. */
  lemma {:induction false} NamesOfEntries(names: seq<string>, aliases: seq<Option<string>>)
    requires |aliases| == |names|
    requires forall k :: 0 <= k < |names| ==> Clean(names[k]) && '=' !in names[k]
    ensures ModelNames(Entries(names, aliases)) == names
  {
    if names != [] {
      var entries := Entries(names, aliases);
      NamesOfEntries(names[1..], aliases[1..]);
      EntriesHead(names, aliases);
      ModelNamesCons(entries, names[0]);
      assert [names[0]] + names[1..] == names;
    }
  }

  /** The first entry names the first name; the rest are the entries of the rest. */
  lemma EntriesHead(names: seq<string>, aliases: seq<Option<string>>)
    requires |aliases| == |names| && names != []
    requires Clean(names[0]) && '=' !in names[0]
    ensures Entries(names, aliases)[0] != []
    ensures EntryName(Entries(names, aliases)[0]) == names[0]
    ensures Entries(names, aliases)[1..] == Entries(names[1..], aliases[1..])
  {
    var e := Entries(names, aliases)[0];
    match aliases[0]
    case None =>
      assert e == names[0];
      EntryNameOfLabelled(names[0], "");
    case Some(l) =>
      assert e == names[0] + "=" + l;
      EntryNameOfLabelled(names[0], l);
  }

  /** A non-empty entry naming `name` contributes `name`. */
  lemma ModelNamesCons(pieces: seq<string>, name: string)
    requires pieces != [] && pieces[0] != [] && name != [] && EntryName(pieces[0]) == name
    ensures ModelNames(pieces) == [name] + ModelNames(pieces[1..])
  {
    var kept := DropEmpty(pieces[1..]);
    assert pieces == [pieces[0]] + pieces[1..];
    calc {
      ModelNames(pieces);
      DropEmpty(Map(EntryName, DropEmpty([pieces[0]] + pieces[1..])));
      { DropEmptyCons(pieces[0], pieces[1..]); }
      DropEmpty(Map(EntryName, [pieces[0]] + kept));
      { MapCons(EntryName, pieces[0], kept); }
      DropEmpty([name] + Map(EntryName, kept));
      { DropEmptyCons(name, Map(EntryName, kept)); }
      [name] + DropEmpty(Map(EntryName, kept));
      [name] + ModelNames(pieces[1..]);
    }
  }

  /** A non-empty head survives the filter. */
  lemma DropEmptyCons(x: string, xs: seq<string>)
    requires x != []
    ensures DropEmpty([x] + xs) == [x] + DropEmpty(xs)
  {
    assert ([x] + xs)[1..] == xs;
  }

  /** The map takes the head to its image. */
  lemma MapCons(f: string -> string, x: string, xs: seq<string>)
    ensures Map(f, [x] + xs) == [f(x)] + Map(f, xs)
  {
    var l, r := Map(f, [x] + xs), [f(x)] + Map(f, xs);
    forall k | 0 <= k < |l| ensures l[k] == r[k] {
      if k > 0 {
        assert ([x] + xs)[k] == xs[k - 1];
      }
    }
  }

  /** The model id matches a keyword, case-insensitively on the id. */
  predicate Matches(model: string, keyword: string)
  {
    Contains(Lower(model), keyword)
  }

  /** `models.find(m => m.toLowerCase().includes(keyword))`. */
  function FirstMatch(models: seq<string>, keyword: string): (r: Option<string>)
    ensures r.None? <==> forall i :: 0 <= i < |models| ==> !Matches(models[i], keyword)
    ensures r.Some? ==> exists i :: 0 <= i < |models| && models[i] == r.value && Matches(r.value, keyword)
                                   && (forall j :: 0 <= j < i ==> !Matches(models[j], keyword))
  {
    if models == [] then None
    else if Matches(models[0], keyword) then Some(models[0])
    else
      var r := FirstMatch(models[1..], keyword);
      assert r.Some? ==> exists i :: 0 <= i < |models| - 1 && models[1..][i] == r.value && Matches(r.value, keyword)
                                    && (forall j :: 0 <= j < i ==> !Matches(models[1..][j], keyword));
      r
  }

  /** The choice the keyword ranking makes, trying `keywords` in order. */
  function Ranked(models: seq<string>, keywords: seq<string>): Option<string>
  {
    if keywords == [] then (if models == [] then None else Some(models[0]))
    else
      match FirstMatch(models, keywords[0])
      case Some(m) => Some(m)
      case None => Ranked(models, keywords[1..])
  }

  /** The ranking loop: keywords are tried in order and the first hit ends the search. */
  method RankedChoice(models: seq<string>, keywords: seq<string>) returns (r: Option<string>)
    ensures r == Ranked(models, keywords)
  {
    r := if models == [] then None else Some(models[0]);
    var i := 0;
    while i < |keywords|
      invariant 0 <= i <= |keywords|
      invariant Ranked(models, keywords) == Ranked(models, keywords[i..])
    {
      var found := FirstMatch(models, keywords[i]);
      if found.Some? {
        return found;
      }
      assert keywords[i..][1..] == keywords[i + 1..];
      i := i + 1;
    }
  }

  /** The model `getLiteModelId` settles on, as a value. */
  function LiteChoice(modelIds: string): Option<string>
  {
    if modelIds == "" then Some(DefaultLiteModel) else Ranked(ParseModelIds(modelIds), LiteKeywords)
  }

  /**
   * `getLiteModelId(modelIds)`. A list that parses to nothing gives no
   * model (the source's `undefined`).
   */
  method LiteModelId(modelIds: string) returns (r: Option<string>)
    ensures modelIds == "" ==> r == Some(DefaultLiteModel)
    ensures modelIds != "" ==> r == Ranked(ParseModelIds(modelIds), LiteKeywords)
    ensures r == LiteChoice(modelIds)
  {
    if modelIds == "" {
      return Some(DefaultLiteModel);
    }
    var models := ParseModelIds(modelIds);
    r := RankedChoice(models, LiteKeywords);
  }

  /** A chosen model comes from the list, and an empty list yields none. */
  lemma {:induction false} RankedMember(models: seq<string>, keywords: seq<string>)
    ensures Ranked(models, keywords).None? <==> models == []
    ensures Ranked(models, keywords).Some? ==> Ranked(models, keywords).value in models
  {
    if keywords != [] {
      RankedMember(models, keywords[1..]);
    }
  }

  /**
   * The ranking: when some keyword matches some model, the choice is the
   * first model (in list order) matching the best-ranked keyword that matches
   * anything; when none does, it is the first model.
   */
  lemma RankedIsBest(models: seq<string>, keywords: seq<string>)
    ensures (forall k, i :: 0 <= k < |keywords| && 0 <= i < |models| ==> !Matches(models[i], keywords[k])) ==>
      Ranked(models, keywords) == (if models == [] then None else Some(models[0]))
    ensures forall k :: (0 <= k < |keywords| && FirstMatch(models, keywords[k]).Some?
                         && (forall k' :: 0 <= k' < k ==> FirstMatch(models, keywords[k']).None?)) ==>
      Ranked(models, keywords) == FirstMatch(models, keywords[k])
  {
    if forall k, i :: 0 <= k < |keywords| && 0 <= i < |models| ==> !Matches(models[i], keywords[k]) {
      RankedNoMatch(models, keywords);
    }
    forall k | 0 <= k < |keywords| && FirstMatch(models, keywords[k]).Some?
        && (forall k' :: 0 <= k' < k ==> FirstMatch(models, keywords[k']).None?)
      ensures Ranked(models, keywords) == FirstMatch(models, keywords[k])
    {
      RankedFirstHit(models, keywords, k);
    }
  }

  /** No keyword matching any model, the first model is chosen. */
  lemma {:induction false} RankedNoMatch(models: seq<string>, keywords: seq<string>)
    requires forall k, i :: 0 <= k < |keywords| && 0 <= i < |models| ==> !Matches(models[i], keywords[k])
    ensures Ranked(models, keywords) == (if models == [] then None else Some(models[0]))
  {
    if keywords != [] {
      assert forall i :: 0 <= i < |models| ==> !Matches(models[i], keywords[0]);
      assert FirstMatch(models, keywords[0]).None?;
      var rest := keywords[1..];
      assert forall k :: 0 <= k < |rest| ==> rest[k] == keywords[k + 1];
      RankedNoMatch(models, rest);
    }
  }

  /** The first keyword (in rank order) that matches decides the choice. */
  lemma {:induction false} RankedFirstHit(models: seq<string>, keywords: seq<string>, k: nat)
    requires k < |keywords| && FirstMatch(models, keywords[k]).Some?
    requires forall k' :: 0 <= k' < k ==> FirstMatch(models, keywords[k']).None?
    ensures Ranked(models, keywords) == FirstMatch(models, keywords[k])
  {
    if k > 0 {
      var rest := keywords[1..];
      assert FirstMatch(models, keywords[0]).None?;
      assert rest[k - 1] == keywords[k];
      assert forall k' :: 0 <= k' < k - 1 ==> rest[k'] == keywords[k' + 1];
      RankedFirstHit(models, rest, k - 1);
    }
  }
}
