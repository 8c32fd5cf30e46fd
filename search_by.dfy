/** The fields a film search may look in, and their case-insensitive lookup. */
module SearchByEnum {
  import opened Wrappers
  import opened Text

  datatype SearchBy = TITLE | DIRECTOR
  {
    /** The string each constant is declared with. */
    function GetValue(): string
    {
      match this
      case TITLE => "title"
      case DIRECTOR => "director"
    }
  }

  /** values(), in declaration order. */
  const Values: seq<SearchBy> := [TITLE, DIRECTOR]

  /** The loop of fromValue from position i on: the first constant whose value matches wins. */
  function FindFrom(value: string, i: nat): (r: Result<SearchBy>)
    requires i <= |Values|
    ensures r.Ok? ==> r.value in Values[i..] && EqualsIgnoreCase(r.value.GetValue(), value)
    ensures r.Err? ==> r.error == IllegalArgument
    ensures r.Err? ==> forall j :: i <= j < |Values| ==> !EqualsIgnoreCase(Values[j].GetValue(), value)
    decreases |Values| - i
  {
    if i == |Values| then Err(IllegalArgument)
    else if EqualsIgnoreCase(Values[i].GetValue(), value) then Ok(Values[i])
    else FindFrom(value, i + 1)
  }

  /** fromValue: the constant whose value equals the string ignoring case, else IllegalArgumentException. */
  function FromValue(value: string): Result<SearchBy>
  {
    FindFrom(value, 0)
  }

  /** "title" and "director" differ ignoring case, so at most one constant matches any string. */
  lemma ValuesDistinctIgnoringCase(value: string, a: SearchBy, b: SearchBy)
    requires EqualsIgnoreCase(a.GetValue(), value) && EqualsIgnoreCase(b.GetValue(), value)
    ensures a == b
  {
    EqualsIgnoreCaseSymmetric(b.GetValue(), value);
    EqualsIgnoreCaseTransitive(a.GetValue(), value, b.GetValue());
    var x, y := a.GetValue(), b.GetValue();
    assert Lower(x[0]) == Lower(y[0]);
    assert x[0] == Lower(x[0]) && y[0] == Lower(y[0]);
    assert a == (if x[0] == 't' then TITLE else DIRECTOR);
    assert b == (if y[0] == 't' then TITLE else DIRECTOR);
  }

  /** fromValue succeeds exactly for the strings equal to some constant's value ignoring case, and then returns it. */
  lemma FromValueMeaning(value: string, c: SearchBy)
    ensures FromValue(value) == Ok(c) <==> EqualsIgnoreCase(c.GetValue(), value)
    ensures FromValue(value).Err? <==> forall d: SearchBy :: !EqualsIgnoreCase(d.GetValue(), value)
  {
    if EqualsIgnoreCase(c.GetValue(), value) {
      assert c in Values;
      var r := FromValue(value);
      if r.Ok? {
        ValuesDistinctIgnoringCase(value, r.value, c);
      }
    }
    if FromValue(value).Ok? {
      assert EqualsIgnoreCase(FromValue(value).value.GetValue(), value);
    } else {
      forall d: SearchBy ensures !EqualsIgnoreCase(d.GetValue(), value) {
        assert d == Values[0] || d == Values[1];
      }
    }
  }

  /** fromValue(c.getValue()) == c for every constant. */
  lemma FromValueGetValue(c: SearchBy)
    ensures FromValue(c.GetValue()) == Ok(c)
  {
    FromValueMeaning(c.GetValue(), c);
  }

  /** Upper-case and mixed-case spellings resolve. */
  lemma FromValueIgnoresCase()
    ensures FromValue("TITLE") == Ok(TITLE)
    ensures FromValue("Director") == Ok(DIRECTOR)
  {
    assert EqualsIgnoreCase("title", "TITLE") by {
      assert Lower('T') == 't' && Lower('I') == 'i' && Lower('L') == 'l' && Lower('E') == 'e';
    }
    assert !EqualsIgnoreCase("title", "Director") by { assert |"title"| != |"Director"|; }
    assert EqualsIgnoreCase("director", "Director") by {
      assert Lower('D') == 'd';
    }
  }

  /** A string that is no constant's value is rejected. */
  lemma FromValueRejectsUnknown()
    ensures FromValue("year") == Err(IllegalArgument)
  {
    assert !EqualsIgnoreCase("title", "year") by { assert |"title"| != |"year"|; }
    assert !EqualsIgnoreCase("director", "year") by { assert |"director"| != |"year"|; }
  }
}
