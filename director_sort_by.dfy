/** The sort keys of a director's filmography and their case-insensitive lookup. */
module DirectorSortByEnum {
  import opened Wrappers
  import opened Text

  datatype DirectorSortBy = YEAR | LIKES | RATE
  {
    /** The string each constant is declared with. */
    function GetValue(): string
    {
      match this
      case YEAR => "year"
      case LIKES => "likes"
      case RATE => "rate"
    }
  }

  /** values(), in declaration order. */
  const Values: seq<DirectorSortBy> := [YEAR, LIKES, RATE]

  /** The loop of fromValue from position i on: the first constant whose value matches wins. */
  function FindFrom(value: string, i: nat): (r: Result<DirectorSortBy>)
    requires i <= |Values|
    ensures r.Ok? ==> r.value in Values[i..] && EqualsIgnoreCase(r.value.GetValue(), value)
    ensures r.Err? ==> r.error == IllegalArgument
    ensures r.Err? ==> forall j :: i <= j < |Values| ==> !EqualsIgnoreCase(Values[j].GetValue(), value)
    decreases |Values| - i
  {
    if i == |Values| then Err(IllegalArgument)
    else if EqualsIgnoreCase(Values[i].GetValue(), value) then Ok(Values[i])
    else FindFrom(value, i + 1)
  }

  /** fromValue: the constant whose value equals the string ignoring case, else IllegalArgumentException. */
  function FromValue(value: string): Result<DirectorSortBy>
  {
    FindFrom(value, 0)
  }

  /** No two constants' values are equal ignoring case, so at most one constant matches any string. */
  lemma ValuesDistinctIgnoringCase(value: string, a: DirectorSortBy, b: DirectorSortBy)
    requires EqualsIgnoreCase(a.GetValue(), value) && EqualsIgnoreCase(b.GetValue(), value)
    ensures a == b
  {
    EqualsIgnoreCaseSymmetric(b.GetValue(), value);
    EqualsIgnoreCaseTransitive(a.GetValue(), value, b.GetValue());
    var x, y := a.GetValue(), b.GetValue();
    assert Lower(x[0]) == Lower(y[0]);
    assert x[0] == Lower(x[0]) && y[0] == Lower(y[0]);
    assert a == (if x[0] == 'y' then YEAR else if x[0] == 'l' then LIKES else RATE);
    assert b == (if y[0] == 'y' then YEAR else if y[0] == 'l' then LIKES else RATE);
  }

  /** fromValue succeeds exactly for the strings equal to some constant's value ignoring case, and then returns it. */
  lemma FromValueMeaning(value: string, c: DirectorSortBy)
    ensures FromValue(value) == Ok(c) <==> EqualsIgnoreCase(c.GetValue(), value)
    ensures FromValue(value).Err? <==> forall d: DirectorSortBy :: !EqualsIgnoreCase(d.GetValue(), value)
  {
    if EqualsIgnoreCase(c.GetValue(), value) {
      assert c in Values;
      var r := FromValue(value);
      if r.Ok? {
        ValuesDistinctIgnoringCase(value, r.value, c);
      }
    }
    if FromValue(value).Ok? {
      assert EqualsIgnoreCase(FromValue(value).value.GetValue(), value);
    } else {
      forall d: DirectorSortBy ensures !EqualsIgnoreCase(d.GetValue(), value) {
        assert d == Values[0] || d == Values[1] || d == Values[2];
      }
    }
  }

  /** fromValue(c.getValue()) == c for every constant. */
  lemma FromValueGetValue(c: DirectorSortBy)
    ensures FromValue(c.GetValue()) == Ok(c)
  {
    FromValueMeaning(c.GetValue(), c);
  }

  /** Upper-case and mixed-case spellings resolve. */
  lemma FromValueIgnoresCase()
    ensures FromValue("YEAR") == Ok(YEAR)
    ensures FromValue("Likes") == Ok(LIKES)
  {
    assert EqualsIgnoreCase("year", "YEAR") by {
      assert Lower('Y') == 'y' && Lower('E') == 'e' && Lower('A') == 'a' && Lower('R') == 'r';
    }
    assert EqualsIgnoreCase("likes", "Likes") by {
      assert Lower('L') == 'l';
    }
  }

  /** A string that is no constant's value is rejected. */
  lemma FromValueRejectsUnknown()
    ensures FromValue("title") == Err(IllegalArgument)
  {
    assert !EqualsIgnoreCase("year", "title") by { assert Lower("year"[0]) != Lower("title"[0]); }
    assert !EqualsIgnoreCase("likes", "title") by { assert Lower("likes"[0]) != Lower("title"[0]); }
    assert !EqualsIgnoreCase("rate", "title") by { assert |"rate"| != |"title"|; }
  }
}
