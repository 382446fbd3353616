/**
 * The single-table revision's listing query
 * (internal/infrastructure/musicRepository.go): the group is the
 * `music_group` column of the song row, four optional filters, a fixed
 * page size.
 */
module InfraQuery {
  import opened Models
  import opened Sql
  import opened MusicQuery

  /** The fixed number of rows per page. */
  const PageSize := 5

  /** The filters the builder sets as written: the link predicate is bound to the text field. */
  function FiltersAsWritten(p: FlatMusic): seq<Filter>
  {
    var f1 := Then([], p.song != "", Filter("song", Str(p.song)));
    var f2 := Then(f1, p.group != "", Filter("music_group", Str(p.group)));
    var f3 := Then(f2, p.text != "", Filter("text_song", Str(p.text)));
    Then(f3, p.link != "", Filter("link", Str(p.text)))
  }

  /** The filters the four fields ask for, each column bound to its own field. */
  function IntendedFilters(p: FlatMusic): seq<Filter>
  {
    var f1 := Then([], p.song != "", Filter("song", Str(p.song)));
    var f2 := Then(f1, p.group != "", Filter("music_group", Str(p.group)));
    var f3 := Then(f2, p.text != "", Filter("text_song", Str(p.text)));
    Then(f3, p.link != "", Filter("link", Str(p.link)))
  }

  /** No filter field is set. */
  predicate Unfiltered(p: FlatMusic)
  {
    p.song == "" && p.group == "" && p.text == "" && p.link == ""
  }

  /** What the filter asks for, field by field. */
  predicate Matches(p: FlatMusic, row: Row)
  {
    && (p.song != "" ==> Agrees(Filter("song", Str(p.song)), row))
    && (p.group != "" ==> Agrees(Filter("music_group", Str(p.group)), row))
    && (p.text != "" ==> Agrees(Filter("text_song", Str(p.text)), row))
    && (p.link != "" ==> Agrees(Filter("link", Str(p.link)), row))
  }

  lemma IntendedFiltersMeanMatch(p: FlatMusic, row: Row)
    ensures AgreesAll(IntendedFilters(p), row) <==> Matches(p, row)
  {
    var f1 := Then([], p.song != "", Filter("song", Str(p.song)));
    var f2 := Then(f1, p.group != "", Filter("music_group", Str(p.group)));
    var f3 := Then(f2, p.text != "", Filter("text_song", Str(p.text)));
    ThenAgrees([], p.song != "", Filter("song", Str(p.song)), row);
    ThenAgrees(f1, p.group != "", Filter("music_group", Str(p.group)), row);
    ThenAgrees(f2, p.text != "", Filter("text_song", Str(p.text)), row);
    ThenAgrees(f3, p.link != "", Filter("link", Str(p.link)), row);
  }

  /**
   * Any predicate list encoding the filters as written has one WHERE
   * exactly when some field is set, is empty with no arguments when none
   * is, and, with a link filter, binds the text as its last argument.
   */
  lemma EncodedAsWritten(params: FlatMusic, cs: seq<Condition>, args: seq<Value>)
    requires Encodes(cs, args, FiltersAsWritten(params))
    ensures WhereCount(cs) == if Unfiltered(params) then 0 else 1
    ensures Unfiltered(params) <==> cs == [] && args == []
    ensures params.link != "" ==> |args| >= 1 && args[|args| - 1] == Str(params.text)
  {
    EncodedHasOneWhere(cs, args, FiltersAsWritten(params));
    if params.link != "" {
      EncodesAt(cs, args, FiltersAsWritten(params), |args| - 1);
    }
  }

  /**
   * Any predicate list encoding the intended filters has one WHERE exactly
   * when some field is set, is empty with no arguments when none is, and
   * selects exactly the matching rows.
   */
  lemma EncodedIntended(params: FlatMusic, cs: seq<Condition>, args: seq<Value>)
    requires Encodes(cs, args, IntendedFilters(params))
    ensures WhereCount(cs) == if Unfiltered(params) then 0 else 1
    ensures Unfiltered(params) <==> cs == [] && args == []
    ensures forall row :: Selects(cs, args, row) <==> Matches(params, row)
  {
    EncodedHasOneWhere(cs, args, IntendedFilters(params));
    forall row ensures Selects(cs, args, row) <==> Matches(params, row) {
      EncodedSelectsAgreeing(cs, args, IntendedFilters(params), row);
      IntendedFiltersMeanMatch(params, row);
    }
  }

  /**
   * generateQuery as written: song, music_group, text_song, link
   * predicates in that order, `$k` after the k-th append, WHERE then AND,
   * and `LIMIT 5 OFFSET (page-1)*5`; the link predicate's argument is the
   * text.
   */
  method GenerateQueryAsWritten(params: FlatMusic, page: int) returns (q: SelectQuery, args: seq<Value>)
    ensures Encodes(q.conditions, args, FiltersAsWritten(params))
    ensures WhereCount(q.conditions) == if Unfiltered(params) then 0 else 1
    ensures Unfiltered(params) <==> q.conditions == [] && args == []
    ensures params.link != "" ==> |args| >= 1 && args[|args| - 1] == Str(params.text)
    ensures q.limit == PageSize && q.offset == (page - 1) * PageSize
  {
    var conditions: seq<Condition> := [];
    args := [];
    var isWhere := false;
    EncodesEmpty();
    ghost var f1 := Then([], params.song != "", Filter("song", Str(params.song)));
    conditions, args, isWhere := AddFilterIfSet(conditions, args, isWhere, [],
      params.song != "", "song", Str(params.song));
    ghost var f2 := Then(f1, params.group != "", Filter("music_group", Str(params.group)));
    conditions, args, isWhere := AddFilterIfSet(conditions, args, isWhere, f1,
      params.group != "", "music_group", Str(params.group));
    ghost var f3 := Then(f2, params.text != "", Filter("text_song", Str(params.text)));
    conditions, args, isWhere := AddFilterIfSet(conditions, args, isWhere, f2,
      params.text != "", "text_song", Str(params.text));
    conditions, args, isWhere := AddFilterIfSet(conditions, args, isWhere, f3,
      params.link != "", "link", Str(params.text));
    EncodedAsWritten(params, conditions, args);
    q := SelectQuery(conditions, PageSize, (page - 1) * PageSize);
  }

  /**
   * Filtering by group and link, as written, compares the link column with
   * the (empty) text: the group's song with that link is not selected.
   */
  lemma LinkFilterBindsText()
    ensures var p := FlatMusic(0, "", "Muse", "", "https://example.com", "");
      var row: Row := map["song" := Str("s"), "music_group" := Str("Muse"),
                          "text_song" := Str("t"), "link" := Str("https://example.com")];
      && Matches(p, row)
      && FiltersAsWritten(p) == [Filter("music_group", Str("Muse")), Filter("link", Str(""))]
      && forall cs, args :: Encodes(cs, args, FiltersAsWritten(p)) ==> !Selects(cs, args, row)
  {
    var p := FlatMusic(0, "", "Muse", "", "https://example.com", "");
    var row: Row := map["song" := Str("s"), "music_group" := Str("Muse"),
                        "text_song" := Str("t"), "link" := Str("https://example.com")];
    forall cs, args | Encodes(cs, args, FiltersAsWritten(p)) ensures !Selects(cs, args, row) {
      EncodedSelectsAgreeing(cs, args, FiltersAsWritten(p), row);
      assert !Agrees(FiltersAsWritten(p)[1], row);
    }
  }

  /** generateQuery with each predicate bound to its own field: it selects exactly the matching rows. */
  method GenerateQuery(params: FlatMusic, page: int) returns (q: SelectQuery, args: seq<Value>)
    ensures Encodes(q.conditions, args, IntendedFilters(params))
    ensures WhereCount(q.conditions) == if Unfiltered(params) then 0 else 1
    ensures Unfiltered(params) <==> q.conditions == [] && args == []
    ensures forall row :: Selects(q.conditions, args, row) <==> Matches(params, row)
    ensures q.limit == PageSize && q.offset == (page - 1) * PageSize
  {
    var conditions: seq<Condition> := [];
    args := [];
    var isWhere := false;
    EncodesEmpty();
    ghost var f1 := Then([], params.song != "", Filter("song", Str(params.song)));
    conditions, args, isWhere := AddFilterIfSet(conditions, args, isWhere, [],
      params.song != "", "song", Str(params.song));
    ghost var f2 := Then(f1, params.group != "", Filter("music_group", Str(params.group)));
    conditions, args, isWhere := AddFilterIfSet(conditions, args, isWhere, f1,
      params.group != "", "music_group", Str(params.group));
    ghost var f3 := Then(f2, params.text != "", Filter("text_song", Str(params.text)));
    conditions, args, isWhere := AddFilterIfSet(conditions, args, isWhere, f2,
      params.text != "", "text_song", Str(params.text));
    conditions, args, isWhere := AddFilterIfSet(conditions, args, isWhere, f3,
      params.link != "", "link", Str(params.link));
    EncodedIntended(params, conditions, args);
    q := SelectQuery(conditions, PageSize, (page - 1) * PageSize);
  }
}
