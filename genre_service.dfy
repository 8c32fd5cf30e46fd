/** Genre lookups over the genre table, modelled as a map from id to row. */
module GenreLookup {
  import opened Wrappers
  import opened Model

  /** The genre table is keyed by each row's own id. */
  predicate Keyed(table: map<int, Genre>)
  {
    forall k :: k in table ==> table[k].id == k
  }

  /** getGenreById: NotFound when the id is absent. */
  function GetGenreById(table: map<int, Genre>, id: int): (r: Result<Genre>)
    ensures r.Ok? <==> id in table
    ensures r.Ok? ==> r.value == table[id]
    ensures r.Err? ==> r.error == NotFound(GenreEntity, Some(id))
  {
    if id in table then Ok(table[id]) else Err(NotFound(GenreEntity, Some(id)))
  }

  /** The rows a `WHERE id IN (...)` query over the table returns. */
  function FindByIds(table: map<int, Genre>, ids: set<int>): (rows: set<Genre>)
    requires Keyed(table)
    ensures forall g :: g in rows <==> g.id in ids && g.id in table && table[g.id] == g
  {
    set k | k in table && k in ids :: table[k]
  }

  /**
   * validateGenresExist: nothing to check for a null or empty id set; otherwise the ids the
   * lookup did not return are the missing ones, and any missing id fails the whole check.
   */
  function ValidateGenresExist(table: map<int, Genre>, genreIds: Option<set<int>>): (o: Outcome)
    requires Keyed(table)
    ensures genreIds.None? || genreIds.value == {} ==> o == Pass
    ensures o == Pass <==> genreIds.None? || genreIds.value <= table.Keys
    ensures o.Fail? ==> o.error == GenresNotFound(genreIds.value - table.Keys)
  {
    if genreIds.None? || genreIds.value == {} then Pass
    else
      var ids := genreIds.value;
      var foundIds := set g | g in FindByIds(table, ids) :: g.id;
      var missingIds := set id | id in ids && id !in foundIds;
      assert foundIds == ids * table.Keys by {
        forall id | id in ids * table.Keys ensures id in foundIds {
          assert table[id] in FindByIds(table, ids);
        }
      }
      assert missingIds == ids - table.Keys;
      assert missingIds == {} ==> ids <= table.Keys by {
        forall id | id in ids && missingIds == {} ensures id in table.Keys {
          assert id !in missingIds;
        }
      }
      if missingIds != {} then Fail(GenresNotFound(missingIds)) else Pass
  }

  /** The check is monotone: a subset of a passing id set passes too. */
  lemma ValidateGenresSubset(table: map<int, Genre>, ids: set<int>, sub: set<int>)
    requires Keyed(table) && sub <= ids
    requires ValidateGenresExist(table, Some(ids)) == Pass
    ensures ValidateGenresExist(table, Some(sub)) == Pass
  {
  }

  /** Scenario: with genres 1 and 2 on file, asking for {1, 3, 4} reports exactly {3, 4}. */
  lemma ValidateGenresReportsMissing()
    ensures ValidateGenresExist(map[1 := Genre(1, "Comedy"), 2 := Genre(2, "Drama")], Some({1, 3, 4}))
            == Fail(GenresNotFound({3, 4}))
  {
    var table := map[1 := Genre(1, "Comedy"), 2 := Genre(2, "Drama")];
    assert {1, 3, 4} - table.Keys == {3, 4};
  }
}
