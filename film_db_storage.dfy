/**
 * The Java-side logic of the database film store: grouping like rows by user, building the search
 * condition and its parameters, the id list of findByIds, and the not-found check of update.
 * The SQL itself is not modelled.
 */
module FilmRows {
  import opened Wrappers
  import opened Model
  import opened Text
  import opened Enumeration
  import opened SearchByEnum

  /** One row of film_likes: (user_id, film_id). */
  type LikeRow = (int, int)

  /**
   * getFilmLikesByUsers: each row adds its film to its user's set, creating the set on first use.
   */
  method GetFilmLikesByUsers(rows: seq<LikeRow>) returns (userLikes: map<int, set<int>>)
    ensures forall u :: u in userLikes <==> exists j :: 0 <= j < |rows| && rows[j].0 == u
    ensures forall u, f :: u in userLikes ==> (f in userLikes[u] <==> (u, f) in rows)
    ensures forall u :: u in userLikes ==> userLikes[u] != {}
  {
    userLikes := map[];
    var i := 0;
    while i < |rows|
      invariant 0 <= i <= |rows|
      invariant forall u :: u in userLikes <==> exists j :: 0 <= j < i && rows[j].0 == u
      invariant forall u, f :: u in userLikes ==> (f in userLikes[u] <==> (u, f) in rows[..i])
      invariant forall u :: u in userLikes ==> userLikes[u] != {}
    {
      var (userId, filmId) := rows[i];
      var likes := if userId in userLikes then userLikes[userId] else {};
      userLikes := userLikes[userId := likes + {filmId}];
      assert rows[..i + 1] == rows[..i] + [rows[i]];
      i := i + 1;
    }
    assert rows[..i] == rows;
  }

  /** Scenario: three rows from two users group into two sets. */
  method GroupingScenario() returns (userLikes: map<int, set<int>>)
    ensures userLikes == map[1 := {10, 11}, 2 := {10}]
  {
    userLikes := GetFilmLikesByUsers([(1, 10), (2, 10), (1, 11)]);
    var rows: seq<LikeRow> := [(1, 10), (2, 10), (1, 11)];
    assert rows[0].0 == 1 && rows[1].0 == 2;
    assert userLikes.Keys == {1, 2} by {
      forall u | u in userLikes ensures u == 1 || u == 2 {
        var j :| 0 <= j < |rows| && rows[j].0 == u;
      }
    }
    assert userLikes[1] == {10, 11} by {
      forall f | f in userLikes[1] ensures f == 10 || f == 11 {
        assert (1, f) in rows;
      }
      assert (1, 10) == rows[0] && (1, 11) == rows[2];
    }
    assert userLikes[2] == {10} by {
      forall f | f in userLikes[2] ensures f == 10 {
        assert (2, f) in rows;
      }
      assert (2, 10) == rows[1];
    }
  }

  /** The LIKE pattern a query becomes: lower-cased and wrapped in wildcards. */
  function Pattern(query: string): (p: string)
    ensures |p| == |query| + 2 && p[0] == '%' && p[|p| - 1] == '%'
    ensures forall i :: 0 <= i < |query| ==> p[i + 1] == Lower(query[i])
  {
    "%" + ToLowerCase(query) + "%"
  }

  const TitlePrefix := " LOWER(f.name) LIKE "
  const DirectorPrefix := " LOWER(d.name) LIKE "
  const TitleCondition := TitlePrefix + "? "
  const DirectorCondition := DirectorPrefix + "? "
  const Or := " OR "

  /** The number of `?` placeholders in a piece of SQL. */
  function Placeholders(s: string): nat
  {
    if s == [] then 0 else (if s[0] == '?' then 1 else 0) + Placeholders(s[1..])
  }

  lemma {:induction false} PlaceholdersAppend(a: string, b: string)
    ensures Placeholders(a + b) == Placeholders(a) + Placeholders(b)
  {
    if a == [] {
      assert a + b == b;
    } else {
      assert (a + b)[1..] == a[1..] + b;
      PlaceholdersAppend(a[1..], b);
    }
  }

  lemma {:induction false} NoPlaceholders(s: string)
    requires '?' !in s
    ensures Placeholders(s) == 0
  {
    if s != [] {
      NoPlaceholders(s[1..]);
    }
  }

  /** A condition on one column: the column's lower-cased value LIKE one placeholder. */
  lemma OnePlaceholder(prefix: string)
    requires forall i :: 0 <= i < |prefix| ==> prefix[i] != '?'
    ensures Placeholders(prefix + "? ") == 1
  {
    NoPlaceholders(prefix);
    PlaceholdersAppend(prefix, "? ");
  }

  /** Each field's condition carries one placeholder, and the OR between them none. */
  lemma ConditionPlaceholders()
    ensures Placeholders(TitleCondition) == 1 && Placeholders(DirectorCondition) == 1 && Placeholders(Or) == 0
  {
    NoPlaceholders(Or);
    OnePlaceholder(TitlePrefix);
    OnePlaceholder(DirectorPrefix);
  }

  /** The WHERE condition of a search and the parameters bound to it, in order. */
  datatype SearchQuery = SearchQuery(condition: string, params: seq<string>)

  /**
   * searchFilms, up to the query text: no query at all when neither field is asked for; otherwise
   * one condition per field, joined by OR only when both are asked for, and one parameter each.
   */
  method BuildSearch(query: string, fields: seq<SearchBy>) returns (r: Option<SearchQuery>)
    ensures r.None? <==> TITLE !in fields && DIRECTOR !in fields
    ensures r.Some? ==> |r.value.params| == (if TITLE in fields then 1 else 0) + (if DIRECTOR in fields then 1 else 0)
    ensures r.Some? ==> forall i :: 0 <= i < |r.value.params| ==> r.value.params[i] == Pattern(query)
    ensures r.Some? ==> Placeholders(r.value.condition) == |r.value.params|
    ensures r.Some? && TITLE in fields && DIRECTOR in fields ==> r.value.condition == TitleCondition + Or + DirectorCondition
    ensures r.Some? && TITLE in fields && DIRECTOR !in fields ==> r.value.condition == TitleCondition
    ensures r.Some? && TITLE !in fields && DIRECTOR in fields ==> r.value.condition == DirectorCondition
  {
    var lowerQuery := Pattern(query);
    var searchByTitle := TITLE in fields;
    var searchByDirector := DIRECTOR in fields;
    if !searchByTitle && !searchByDirector {
      return None;
    }
    ConditionPlaceholders();
    var sql := "";
    var params: seq<string> := [];
    if searchByTitle {
      assert sql + TitleCondition == TitleCondition;
      sql := sql + TitleCondition;
      params := params + [lowerQuery];
    }
    if searchByDirector {
      if searchByTitle {
        PlaceholdersAppend(sql, Or);
        sql := sql + Or;
      }
      PlaceholdersAppend(sql, DirectorCondition);
      assert !searchByTitle ==> sql + DirectorCondition == DirectorCondition;
      sql := sql + DirectorCondition;
      params := params + [lowerQuery];
    }
    r := Some(SearchQuery(sql, params));
  }

  /** `order` lists the members of `ids`, each once: the iteration order of a set. */
  ghost predicate Lists(order: seq<int>, ids: set<int>)
  {
    Distinct(order) && forall x :: x in ids <==> x in order
  }

  /** A listing of a set is as long as the set is large. */
  lemma ListsLength(order: seq<int>, ids: set<int>)
    requires Lists(order, ids)
    ensures |order| == |ids|
  {
    DistinctCard(order);
    assert (set i | 0 <= i < |order| :: order[i]) == ids by {
      forall x | x in ids ensures x in (set i | 0 <= i < |order| :: order[i]) {
        var i :| 0 <= i < |order| && order[i] == x;
      }
    }
  }

  /** The decimal renderings of the ids, in order. */
  function Decimals(order: seq<int>): (r: seq<string>)
    ensures |r| == |order|
    ensures forall i :: 0 <= i < |order| ==> r[i] == IntToString(order[i])
  {
    if order == [] then [] else [IntToString(order[0])] + Decimals(order[1..])
  }

  /**
   * The findByIds guard and in-clause: no query for a null or empty id set; otherwise the ids
   * joined by commas, in the set's iteration order.
   */
  function FindByIdsClause(ids: Option<set<int>>, order: seq<int>): (r: Option<string>)
    requires ids.Some? ==> Lists(order, ids.value)
    ensures r.None? <==> ids.None? || ids.value == {}
    ensures r.Some? ==> |order| > 0 && r.value == Join(Decimals(order), ',')
  {
    if ids.None? || ids.value == {} then None
    else
      assert order != [] by {
        ListsLength(order, ids.value);
      }
      Some(Join(Decimals(order), ','))
  }

  /** Reading the in-clause back: its comma-separated pieces parse to exactly the listed ids. */
  lemma FindByIdsClauseRoundTrip(ids: set<int>, order: seq<int>)
    requires Lists(order, ids) && ids != {}
    ensures var pieces := Split(FindByIdsClause(Some(ids), order).value, ',');
            && |pieces| == |order|
            && forall i :: 0 <= i < |order| ==> pieces[i] == IntToString(order[i]) && ParseInt(pieces[i]) == order[i]
  {
    var xs := Decimals(order);
    forall i | 0 <= i < |xs| ensures ',' !in xs[i] {
      IntToStringRoundTrip(order[i]);
      assert forall k :: 0 <= k < |xs[i]| ==> xs[i][k] != ',';
    }
    assert |order| > 0 by {
      ListsLength(order, ids);
    }
    SplitJoin(xs, ',');
    forall i | 0 <= i < |order| ensures ParseInt(xs[i]) == order[i] {
      IntToStringRoundTrip(order[i]);
    }
  }

  class FilmDbStorage {
    /** The films table, with each film's genre, director and like rows folded in. */
    var films: map<int, Film>

    constructor (films: map<int, Film>)
      ensures this.films == films
    {
      this.films := films;
    }

    /**
     * update: the MPA id is read before the statement runs, so a film without one is a null
     * dereference; a statement that touches no row (a null or unknown id) is NotFound. Otherwise
     * the row and its genre, director and like rows are replaced by the film's.
     */
    method Update(film: Film) returns (r: Result<Film>)
      modifies this
      ensures film.mpa.None? ==> r == Err(NullReference) && unchanged(this)
      ensures film.mpa.Some? && (film.id.None? || film.id.value !in old(films)) ==>
                r == Err(NotFound(FilmEntity, film.id)) && unchanged(this)
      ensures film.mpa.Some? && film.id.Some? && film.id.value in old(films) ==>
                r == Ok(film) && films == old(films)[film.id.value := film]
    {
      if film.mpa.None? {
        return Err(NullReference);
      }
      var updated := if film.id.Some? && film.id.value in films then 1 else 0;
      if updated == 0 {
        return Err(NotFound(FilmEntity, film.id));
      }
      films := films[film.id.value := film];
      r := Ok(films[film.id.value]);
    }
  }
}
