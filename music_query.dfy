/**
 * The statement builders of the current repository revision
 * (internal/storage/music/music.go): the filtered, paginated listing query
 * over `music` left-joined to its group, and the partial `UPDATE music SET`
 * statement built from the non-zero fields of a song.
 */
module MusicQuery {
  import opened Outcomes
  import opened Models
  import opened Sql

  // ---------------------------------------------------------------------
  // Listing query (generateQuery / addCondition)
  // ---------------------------------------------------------------------

  const SongColumn := "m.song"
  const TextColumn := "m.text_song"
  const LinkColumn := "m.link"
  const GroupColumn := "g.name"
  const DateColumn := "m.release_date"

  /** The position of a filter column in the builder's fixed order. */
  function ColumnRank(column: string): nat
  {
    if column == SongColumn then 0
    else if column == TextColumn then 1
    else if column == LinkColumn then 2
    else if column == GroupColumn then 3
    else 4
  }

  /** `fs` followed by `f` when the field is set; the builder's `if field != zero { append }`. */
  function Then(fs: seq<Filter>, isSet: bool, f: Filter): seq<Filter>
  {
    if isSet then fs + [f] else fs
  }

  /**
   * The filters a parameter record sets, in the order the builder tries
   * them: a field is set when it is a non-empty string or a non-zero date.
   */
  function SetFilters(params: Music): seq<Filter>
  {
    var f1 := Then([], params.song != "", Filter(SongColumn, Str(params.song)));
    var f2 := Then(f1, params.text != "", Filter(TextColumn, Str(params.text)));
    var f3 := Then(f2, params.link != "", Filter(LinkColumn, Str(params.link)));
    var f4 := Then(f3, params.group.name != "", Filter(GroupColumn, Str(params.group.name)));
    Then(f4, !params.releaseDate.IsZero(), Filter(DateColumn, Time(params.releaseDate)))
  }

  /** True when no filter field of `params` is set. */
  predicate Unfiltered(params: Music)
  {
    params.song == "" && params.text == "" && params.link == ""
    && params.group.name == "" && params.releaseDate.IsZero()
  }

  /**
   * What the filter means, field by field: every set field equals the
   * row's column (a NULL column, e.g. the group of an unlinked song, never
   * equals anything).
   */
  predicate MatchesFilter(params: Music, row: Row)
  {
    && (params.song != "" ==> Agrees(Filter(SongColumn, Str(params.song)), row))
    && (params.text != "" ==> Agrees(Filter(TextColumn, Str(params.text)), row))
    && (params.link != "" ==> Agrees(Filter(LinkColumn, Str(params.link)), row))
    && (params.group.name != "" ==> Agrees(Filter(GroupColumn, Str(params.group.name)), row))
    && (!params.releaseDate.IsZero() ==> Agrees(Filter(DateColumn, Time(params.releaseDate)), row))
  }

  lemma ColumnRanks()
    ensures ColumnRank(SongColumn) == 0 && ColumnRank(TextColumn) == 1 && ColumnRank(LinkColumn) == 2
    ensures ColumnRank(GroupColumn) == 3 && ColumnRank(DateColumn) == 4
  {
    assert SongColumn[2] == 's' && TextColumn[2] == 't' && LinkColumn[2] == 'l' && GroupColumn[0] == 'g';
    assert DateColumn[2] == 'r';
  }

  /** The filters' columns strictly follow the builder's column order. */
  predicate Ascending(fs: seq<Filter>)
  {
    forall i, j :: 0 <= i < j < |fs| ==> ColumnRank(fs[i].column) < ColumnRank(fs[j].column)
  }

  /** Appending a filter whose column comes after every column so far keeps the order. */
  lemma ThenAscending(fs: seq<Filter>, isSet: bool, f: Filter)
    requires Ascending(fs) && forall i :: 0 <= i < |fs| ==> ColumnRank(fs[i].column) < ColumnRank(f.column)
    ensures Ascending(Then(fs, isSet, f))
    ensures forall i :: 0 <= i < |Then(fs, isSet, f)| ==> ColumnRank(Then(fs, isSet, f)[i].column) <= ColumnRank(f.column)
    ensures |Then(fs, isSet, f)| == |fs| + (if isSet then 1 else 0)
  {
  }

  /** The set filters are in the fixed column order, one per set field. */
  lemma SetFiltersOrdered(params: Music)
    ensures Ascending(SetFilters(params))
    ensures SetFilters(params) == [] <==> Unfiltered(params)
    ensures |SetFilters(params)| <= 5
  {
    ColumnRanks();
    var f1 := Then([], params.song != "", Filter(SongColumn, Str(params.song)));
    var f2 := Then(f1, params.text != "", Filter(TextColumn, Str(params.text)));
    var f3 := Then(f2, params.link != "", Filter(LinkColumn, Str(params.link)));
    var f4 := Then(f3, params.group.name != "", Filter(GroupColumn, Str(params.group.name)));
    ThenAscending([], params.song != "", Filter(SongColumn, Str(params.song)));
    ThenAscending(f1, params.text != "", Filter(TextColumn, Str(params.text)));
    ThenAscending(f2, params.link != "", Filter(LinkColumn, Str(params.link)));
    ThenAscending(f3, params.group.name != "", Filter(GroupColumn, Str(params.group.name)));
    ThenAscending(f4, !params.releaseDate.IsZero(), Filter(DateColumn, Time(params.releaseDate)));
    assert SetFilters(params) == Then(f4, !params.releaseDate.IsZero(), Filter(DateColumn, Time(params.releaseDate)));
  }

  lemma ThenAgrees(fs: seq<Filter>, isSet: bool, f: Filter, row: Row)
    ensures AgreesAll(Then(fs, isSet, f), row) <==> AgreesAll(fs, row) && (isSet ==> Agrees(f, row))
  {
    if isSet {
      AgreesAllAppend(fs, [f], row);
      assert AgreesAll([f], row) <==> Agrees([f][0], row);
    }
  }

  /** A row satisfies all the set filters exactly when it matches the filter field by field. */
  lemma SetFiltersMeanMatch(params: Music, row: Row)
    ensures AgreesAll(SetFilters(params), row) <==> MatchesFilter(params, row)
  {
    var f1 := Then([], params.song != "", Filter(SongColumn, Str(params.song)));
    var f2 := Then(f1, params.text != "", Filter(TextColumn, Str(params.text)));
    var f3 := Then(f2, params.link != "", Filter(LinkColumn, Str(params.link)));
    var f4 := Then(f3, params.group.name != "", Filter(GroupColumn, Str(params.group.name)));
    ThenAgrees([], params.song != "", Filter(SongColumn, Str(params.song)), row);
    ThenAgrees(f1, params.text != "", Filter(TextColumn, Str(params.text)), row);
    ThenAgrees(f2, params.link != "", Filter(LinkColumn, Str(params.link)), row);
    ThenAgrees(f3, params.group.name != "", Filter(GroupColumn, Str(params.group.name)), row);
    ThenAgrees(f4, !params.releaseDate.IsZero(), Filter(DateColumn, Time(params.releaseDate)), row);
  }

  /**
   * Any predicate list that encodes the set filters of `params` has one
   * WHERE exactly when some field is set, is empty with no arguments when
   * none is, and selects exactly the rows matching the filter.
   */
  lemma EncodedFilterQuery(params: Music, cs: seq<Condition>, args: seq<Value>)
    requires Encodes(cs, args, SetFilters(params))
    ensures WhereCount(cs) == if Unfiltered(params) then 0 else 1
    ensures Unfiltered(params) <==> cs == [] && args == []
    ensures forall row :: Selects(cs, args, row) <==> MatchesFilter(params, row)
  {
    SetFiltersOrdered(params);
    EncodedHasOneWhere(cs, args, SetFilters(params));
    forall row ensures Selects(cs, args, row) <==> MatchesFilter(params, row) {
      EncodedSelectsAgreeing(cs, args, SetFilters(params), row);
      SetFiltersMeanMatch(params, row);
    }
  }

  /** addCondition: the predicate on `field` with placeholder `$paramIndex`, AND-joined once a WHERE exists. */
  function AddCondition(field: string, paramIndex: nat, isWhere: bool): (c: Condition)
    ensures c.column == field && c.param == paramIndex
    ensures c.conn == Where <==> !isWhere
  {
    Condition(if isWhere then And else Where, field, paramIndex)
  }

  /**
   * The block generateQuery repeats for each filter field: when the field is
   * set, append its value to the arguments and its predicate, numbered by
   * the new argument count, to the list; from then on a WHERE exists.
   */
  method AddFilterIfSet(conditions: seq<Condition>, args: seq<Value>, isWhere: bool, ghost fs: seq<Filter>,
                        isSet: bool, column: string, value: Value)
    returns (conditions': seq<Condition>, args': seq<Value>, isWhere': bool)
    requires Encodes(conditions, args, fs) && (isWhere <==> fs != [])
    ensures Encodes(conditions', args', Then(fs, isSet, Filter(column, value)))
    ensures isWhere' <==> Then(fs, isSet, Filter(column, value)) != []
  {
    conditions', args', isWhere' := conditions, args, isWhere;
    if isSet {
      EncodesExtend(conditions, args, fs, column, value);
      args' := args + [value];
      conditions' := conditions + [AddCondition(column, |args'|, isWhere)];
      isWhere' := true;
    }
  }

  /**
   * generateQuery: one predicate per set field in the fixed order, the k-th
   * bound to `$k` and to the k-th argument, the first introduced by WHERE,
   * then `LIMIT countSongs OFFSET (page-1)*countSongs`.
   */
  method GenerateQuery(params: Music, countSongs: int, page: int) returns (q: SelectQuery, args: seq<Value>)
    ensures Encodes(q.conditions, args, SetFilters(params))
    ensures WhereCount(q.conditions) == if Unfiltered(params) then 0 else 1
    ensures Unfiltered(params) <==> q.conditions == [] && args == []
    ensures forall row :: Selects(q.conditions, args, row) <==> MatchesFilter(params, row)
    ensures q.limit == countSongs && q.offset == (page - 1) * countSongs
  {
    var conditions: seq<Condition> := [];
    args := [];
    var isWhere := false;
    EncodesEmpty();
    ghost var f1 := Then([], params.song != "", Filter(SongColumn, Str(params.song)));
    conditions, args, isWhere := AddFilterIfSet(conditions, args, isWhere, [],
      params.song != "", SongColumn, Str(params.song));
    ghost var f2 := Then(f1, params.text != "", Filter(TextColumn, Str(params.text)));
    conditions, args, isWhere := AddFilterIfSet(conditions, args, isWhere, f1,
      params.text != "", TextColumn, Str(params.text));
    ghost var f3 := Then(f2, params.link != "", Filter(LinkColumn, Str(params.link)));
    conditions, args, isWhere := AddFilterIfSet(conditions, args, isWhere, f2,
      params.link != "", LinkColumn, Str(params.link));
    ghost var f4 := Then(f3, params.group.name != "", Filter(GroupColumn, Str(params.group.name)));
    conditions, args, isWhere := AddFilterIfSet(conditions, args, isWhere, f3,
      params.group.name != "", GroupColumn, Str(params.group.name));
    conditions, args, isWhere := AddFilterIfSet(conditions, args, isWhere, f4,
      !params.releaseDate.IsZero(), DateColumn, Time(params.releaseDate));
    EncodedFilterQuery(params, conditions, args);
    q := SelectQuery(conditions, countSongs, (page - 1) * countSongs);
  }

  // ---------------------------------------------------------------------
  // Partial update (generateUpdateQuery)
  // ---------------------------------------------------------------------

  /** What reflection sees of one struct field: its name, its `db` tag, its value, and whether it is the zero value. */
  datatype FieldInfo = FieldInfo(name: string, column: string, value: Value, isZero: bool)

  /** The fields of `models.Music` in declaration order (internal/domain/models/music.go:5-12). */
  function FieldsOf(m: Music): (fs: seq<FieldInfo>)
    ensures |fs| == 6
  {
    [ FieldInfo("Id", "id", Int(m.id), m.id == 0),
      FieldInfo("Song", "song", Str(m.song), m.song == ""),
      FieldInfo("Group", "group", Str(m.group.name), m.group == Group(0, "")),
      FieldInfo("Text", "text_song", Str(m.text), m.text == ""),
      FieldInfo("Link", "link", Str(m.link), m.link == ""),
      FieldInfo("ReleaseDate", "release_date", Time(m.releaseDate), m.releaseDate.IsZero()) ]
  }

  /** A field takes part in the SET list when it is non-zero and is not the group. */
  predicate Emitted(f: FieldInfo)
  {
    !f.isZero && f.name != "Group"
  }

  /** The emitted fields of a field list, in order. */
  function Kept(fs: seq<FieldInfo>): (r: seq<FieldInfo>)
    ensures |r| <= |fs|
    ensures forall k :: 0 <= k < |r| ==> Emitted(r[k])
  {
    if fs == [] then []
    else Kept(fs[..|fs| - 1]) + (if Emitted(fs[|fs| - 1]) then [fs[|fs| - 1]] else [])
  }

  /** The kept fields are taken from the field list, and every emitted field of it is kept. */
  lemma {:induction false} KeptFromFields(fs: seq<FieldInfo>)
    ensures forall k :: 0 <= k < |Kept(fs)| ==> Kept(fs)[k] in fs
    ensures forall f :: f in fs && Emitted(f) ==> f in Kept(fs)
  {
    if fs != [] {
      var init := fs[..|fs| - 1];
      KeptFromFields(init);
      assert fs == init + [fs[|fs| - 1]];
    }
  }

  /** One entry `column = $param` of a SET list. */
  datatype Assignment = Assignment(column: string, param: nat)

  /** `UPDATE music SET <sets> WHERE id=$whereParam`. */
  datatype UpdateStatement = UpdateStatement(sets: seq<Assignment>, whereParam: nat)

  /** The first |kept| assignments and arguments are the SET list for `kept`, numbered from $1. */
  ghost predicate SetsFor(kept: seq<FieldInfo>, sets: seq<Assignment>, args: seq<Value>)
  {
    && |sets| == |kept| && |args| >= |kept|
    && forall k :: 0 <= k < |kept| ==> sets[k] == Assignment(kept[k].column, k + 1) && args[k] == kept[k].value
  }

  /**
   * The statement built for a patch: a SET entry per emitted field in field
   * order with `$1..$n`, then `WHERE id=$(n+1)` with the id as the last
   * of the n+1 arguments.
   */
  ghost predicate BuiltUpdate(music: Music, id: int, stmt: UpdateStatement, args: seq<Value>)
  {
    var kept := Kept(FieldsOf(music));
    && kept != []
    && SetsFor(kept, stmt.sets, args)
    && |args| == |kept| + 1
    && stmt.whereParam == |kept| + 1
    && args[|kept|] == Int(id)
  }

  /** True when the patch has at least one field that generateUpdateQuery would SET. */
  predicate HasPatch(music: Music)
  {
    music.id != 0 || music.song != "" || music.text != "" || music.link != "" || !music.releaseDate.IsZero()
  }

  lemma {:induction false} KeptEmpty(fs: seq<FieldInfo>)
    ensures Kept(fs) == [] <==> forall k :: 0 <= k < |fs| ==> !Emitted(fs[k])
  {
    if fs != [] {
      var n := |fs| - 1;
      KeptEmpty(fs[..n]);
      assert forall k :: 0 <= k < n ==> fs[..n][k] == fs[k];
    }
  }

  lemma KeptIsPatch(music: Music)
    ensures Kept(FieldsOf(music)) != [] <==> HasPatch(music)
  {
    var fs := FieldsOf(music);
    KeptEmpty(fs);
    if HasPatch(music) {
      if music.id != 0 { assert Emitted(fs[0]); }
      else if music.song != "" { assert Emitted(fs[1]); }
      else if music.text != "" { assert Emitted(fs[3]); }
      else if music.link != "" { assert Emitted(fs[4]); }
      else { assert Emitted(fs[5]); }
    }
  }

  /**
   * generateUpdateQuery: the SET list of the non-zero, non-group fields and
   * the WHERE on the id; no statement and no arguments (`"", nil`) when
   * there is nothing to set.
   */
  method GenerateUpdateQuery(music: Music, id: int) returns (stmt: Option<UpdateStatement>, args: seq<Value>)
    ensures stmt.None? <==> !HasPatch(music)
    ensures stmt.None? ==> args == []
    ensures stmt.Some? ==> BuiltUpdate(music, id, stmt.value, args)
  {
    var fields := FieldsOf(music);
    var updates: seq<Assignment> := [];
    args := [];
    var i := 0;
    while i < |fields|
      invariant 0 <= i <= |fields|
      invariant SetsFor(Kept(fields[..i]), updates, args) && |args| == |updates|
    {
      assert fields[..i + 1][..i] == fields[..i];
      if !fields[i].isZero && fields[i].name != "Group" {
        updates := updates + [Assignment(fields[i].column, |args| + 1)];
        args := args + [fields[i].value];
      }
      i := i + 1;
    }
    assert fields[..i] == fields;
    KeptIsPatch(music);
    if |updates| == 0 {
      return None, [];
    }
    stmt := Some(UpdateStatement(updates, |args| + 1));
    args := args + [Int(id)];
  }

  // ---------------------------------------------------------------------
  // What executing the update does to a stored row
  // ---------------------------------------------------------------------

  /** `SET column = v` on a stored row; the key column and mismatched values are not stored columns. */
  function Assign(row: SongRow, column: string, v: Value): SongRow
  {
    match v
    case Str(s) =>
      if column == "song" then row.(song := s)
      else if column == "text_song" then row.(text := s)
      else if column == "link" then row.(link := s)
      else row
    case Time(d) => if column == "release_date" then row.(releaseDate := d) else row
    case Int(_) => row
  }

  /** A SET list with its placeholders bound from `args`, applied to a row. */
  function ApplySets(row: SongRow, sets: seq<Assignment>, args: seq<Value>): SongRow
  {
    if sets == [] then row
    else
      var last := sets[|sets| - 1];
      var before := ApplySets(row, sets[..|sets| - 1], args);
      if 1 <= last.param <= |args| then Assign(before, last.column, args[last.param - 1]) else before
  }

  /** Each emitted field of `fs`, in order, written to the row. */
  function ApplyEmitted(row: SongRow, fs: seq<FieldInfo>): SongRow
  {
    if fs == [] then row
    else
      var before := ApplyEmitted(row, fs[..|fs| - 1]);
      if Emitted(fs[|fs| - 1]) then Assign(before, fs[|fs| - 1].column, fs[|fs| - 1].value) else before
  }

  /**
   * The partial-update policy stated directly: a non-empty string or a
   * non-zero date replaces the stored value, anything else leaves it.
   */
  function Patched(row: SongRow, music: Music): SongRow
  {
    SongRow(
      if music.song != "" then music.song else row.song,
      if music.text != "" then music.text else row.text,
      if music.link != "" then music.link else row.link,
      if !music.releaseDate.IsZero() then music.releaseDate else row.releaseDate)
  }

  lemma {:induction false} ApplySetsIsApplyEmitted(row: SongRow, fs: seq<FieldInfo>, sets: seq<Assignment>, args: seq<Value>)
    requires SetsFor(Kept(fs), sets, args)
    ensures ApplySets(row, sets, args) == ApplyEmitted(row, fs)
  {
    if fs != [] {
      var n := |fs| - 1;
      var kept := Kept(fs[..n]);
      var m := |kept|;
      assert Kept(fs) == kept + (if Emitted(fs[n]) then [fs[n]] else []);
      if Emitted(fs[n]) {
        assert SetsFor(kept, sets[..m], args) by {
          forall k | 0 <= k < m ensures sets[..m][k] == Assignment(kept[k].column, k + 1) && args[k] == kept[k].value {
            assert Kept(fs)[k] == kept[k];
          }
        }
        ApplySetsIsApplyEmitted(row, fs[..n], sets[..m], args);
        assert Kept(fs)[m] == fs[n];
        assert sets[|sets| - 1] == Assignment(fs[n].column, m + 1);
      } else {
        ApplySetsIsApplyEmitted(row, fs[..n], sets, args);
      }
    }
  }

  /** ApplyEmitted of one more field: that field written when it is emitted. */
  lemma ApplyEmittedStep(row: SongRow, fs: seq<FieldInfo>, i: nat)
    requires i < |fs|
    ensures ApplyEmitted(row, fs[..i + 1])
         == if Emitted(fs[i]) then Assign(ApplyEmitted(row, fs[..i]), fs[i].column, fs[i].value)
            else ApplyEmitted(row, fs[..i])
  {
    assert fs[..i + 1][..i] == fs[..i];
  }

  /**
   * Executing the built SET list on a stored row performs exactly the
   * partial update: supplied fields replaced, all others untouched; the
   * WHERE placeholder is bound to the id. (A non-zero Id field would also
   * SET the key column, which this row-level view does not show.)
   */
  lemma ExecutedUpdateIsPatch(music: Music, id: int, stmt: UpdateStatement, args: seq<Value>, row: SongRow)
    requires music.id == 0
    requires BuiltUpdate(music, id, stmt, args)
    ensures ApplySets(row, stmt.sets, args) == Patched(row, music)
    ensures 1 <= stmt.whereParam <= |args| && args[stmt.whereParam - 1] == Int(id)
  {
    ApplySetsIsApplyEmitted(row, FieldsOf(music), stmt.sets, args);
    EmittedIsPatched(music, row);
  }

  /** Writing each emitted field of a patch with a zero Id is the partial-update policy. */
  lemma EmittedIsPatched(music: Music, row: SongRow)
    requires music.id == 0
    ensures ApplyEmitted(row, FieldsOf(music)) == Patched(row, music)
  {
    var fs := FieldsOf(music);
    var p := Patched(row, music);
    assert fs[..0] == [];
    ApplyEmittedStep(row, fs, 0);
    ApplyEmittedStep(row, fs, 1);
    ApplyEmittedStep(row, fs, 2);
    var r3 := ApplyEmitted(row, fs[..3]);
    assert r3 == row.(song := p.song) by {
      assert !Emitted(fs[0]) && !Emitted(fs[2]);
    }
    ApplyEmittedStep(row, fs, 3);
    ApplyEmittedStep(row, fs, 4);
    ApplyEmittedStep(row, fs, 5);
    assert fs[..6] == fs;
  }
}
