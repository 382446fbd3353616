/**
 * The service of the single-table revision (internal/application/musicService.go):
 * lyrics are paged one verse per page. Its other operations hand their
 * arguments to the repository and its answer back unchanged.
 */
module AppService {
  import opened Outcomes
  import opened Verses

  /** The errors of GetText: the repository's own error, or one of the two page checks. */
  datatype AppError<E> = Repo(cause: E) | PageBelowOne | PageOutOfRange

  /**
   * GetText as written: a repository error first, then `page < 1`, then
   * `len(verses) <= page` as out of range, else verse number `page`.
   */
  function GetTextAsWritten<E>(repo: Result<string, E>, page: int): (r: Result<string, AppError<E>>)
    ensures repo.Err? ==> r == Err(Repo(repo.error))
    ensures repo.Ok? && page < 1 ==> r == Err(PageBelowOne)
    ensures r.Ok? ==> 1 <= page < |Split(repo.value)| && r.value == Split(repo.value)[page - 1]
  {
    match repo
    case Err(e) => Err(Repo(e))
    case Ok(text) =>
      if page < 1 then Err(PageBelowOne)
      else
        var verses := Split(text);
        if |verses| <= page then Err(PageOutOfRange) else Ok(verses[page - 1])
  }

  /** As written, the last verse is never returned: its page number is reported out of range. */
  lemma LastVerseUnreachable<E>(text: string)
    ensures GetTextAsWritten<E>(Ok(text), |Split(text)|) == Err(PageOutOfRange)
  {
  }

  /** A three-verse text: pages 1 and 2 are served, page 3 (the verse "C") is refused. */
  lemma ThreeVersesAsWritten()
    ensures Split("A\n\nB\n\nC") == ["A", "B", "C"]
    ensures GetTextAsWritten<int>(Ok("A\n\nB\n\nC"), 3) == Err(PageOutOfRange)
  {
    var s := "A\n\nB\n\nC";
    assert FindSep(s, 0) == 1 by {
      assert !SepAt(s, 0) && SepAt(s, 1);
    }
    var s1 := s[3..];
    assert s1 == "B\n\nC";
    assert FindSep(s1, 0) == 1 by {
      assert !SepAt(s1, 0) && SepAt(s1, 1);
    }
    var s2 := s1[3..];
    assert s2 == "C";
    assert FindSep(s2, 0) == -1;
    assert Split(s2) == ["C"];
    assert s1[..1] == "B" && Split(s1) == [s1[..1]] + Split(s2);
    assert s[..1] == "A" && Split(s) == [s[..1]] + Split(s1);
  }

  /**
   * GetText with the range check the one-based page numbering calls for,
   * `len(verses) < page`: verse number `page` for every page from 1 to the
   * number of verses.
   */
  function GetText<E>(repo: Result<string, E>, page: int): (r: Result<string, AppError<E>>)
    ensures repo.Err? ==> r == Err(Repo(repo.error))
    ensures repo.Ok? && page < 1 ==> r == Err(PageBelowOne)
    ensures repo.Ok? && page > |Split(repo.value)| ==> r == Err(PageOutOfRange)
    ensures repo.Ok? && 1 <= page <= |Split(repo.value)| ==> r == Ok(Split(repo.value)[page - 1])
  {
    match repo
    case Err(e) => Err(Repo(e))
    case Ok(text) =>
      if page < 1 then Err(PageBelowOne)
      else
        var verses := Split(text);
        if |verses| < page then Err(PageOutOfRange) else Ok(verses[page - 1])
  }

  /** Every verse of a text is served, by exactly its own page. */
  lemma EveryVerseServed<E>(text: string, k: int)
    requires 0 <= k < |Split(text)|
    ensures GetText<E>(Ok(text), k + 1) == Ok(Split(text)[k])
    ensures GetTextAsWritten<E>(Ok(text), k + 1).Ok? <==> k + 1 < |Split(text)|
  {
  }

  /** The two revisions agree on every page but the last. */
  lemma AsWrittenDiffersOnlyAtLast<E>(repo: Result<string, E>, page: int)
    requires repo.Ok? ==> page != |Split(repo.value)|
    ensures GetTextAsWritten(repo, page) == GetText(repo, page)
  {
  }
}
