/** The admin list screen: the case-insensitive name search, the difficulty
    badge, and the count line above the list. */
module AdminList {
  import opened Wrappers
  import opened JsString
  import opened JsNumber
  import Catalog
  import opened Difficulty

  /** A record matches when the lower-cased query occurs in its lower-cased common
      or Latin name. The query is lower-cased but not trimmed. */
  predicate Matches(b: Catalog.Butterfly, q: string) {
    Includes(ToLower(b.commonName), ToLower(q)) || Includes(ToLower(b.latinName), ToLower(q))
  }

  /** The same condition stated through occurrence at some position. */
  ghost predicate MatchSpec(b: Catalog.Butterfly, q: string) {
    OccursIn(ToLower(q), ToLower(b.commonName)) || OccursIn(ToLower(q), ToLower(b.latinName))
  }

  lemma MatchesIffSpec(b: Catalog.Butterfly, q: string)
    ensures Matches(b, q) <==> MatchSpec(b, q)
  {
    IncludesIffOccurs(ToLower(b.commonName), ToLower(q));
    IncludesIffOccurs(ToLower(b.latinName), ToLower(q));
  }

  /** `a` is `b` with some elements left out, the rest in their order. */
  ghost predicate SubsequenceOf<T>(a: seq<T>, b: seq<T>)
    decreases |b|
  {
    |a| == 0 || (|b| > 0 && ((a[0] == b[0] && SubsequenceOf(a[1..], b[1..])) || SubsequenceOf(a, b[1..])))
  }

  /** `Array.prototype.filter` with `Matches`. */
  function Keep(list: seq<Catalog.Butterfly>, q: string): (r: seq<Catalog.Butterfly>)
    ensures |r| <= |list|
    ensures forall b :: b in r <==> b in list && Matches(b, q)
  {
    if |list| == 0 then []
    else if Matches(list[0], q) then [list[0]] + Keep(list[1..], q)
    else Keep(list[1..], q)
  }

  /** Every copy of a matching record stays and every copy of any other record
      goes, so the shown count counts repeated records. */
  lemma {:induction false} KeepCounts(list: seq<Catalog.Butterfly>, q: string)
    ensures forall b :: multiset(Keep(list, q))[b] == if Matches(b, q) then multiset(list)[b] else 0
  {
    if |list| > 0 {
      KeepCounts(list[1..], q);
      assert list == [list[0]] + list[1..];
    }
  }

  lemma {:induction false} KeepIsSubsequence(list: seq<Catalog.Butterfly>, q: string)
    ensures SubsequenceOf(Keep(list, q), list)
  {
    if |list| > 0 {
      KeepIsSubsequence(list[1..], q);
      var r := Keep(list, q);
      if !Matches(list[0], q) && |r| > 0 {
        assert r == Keep(list[1..], q);
      }
    }
  }

  /** Every record stays exactly when every record matches. */
  lemma {:induction false} KeepAllIffAllMatch(list: seq<Catalog.Butterfly>, q: string)
    ensures Keep(list, q) == list <==> forall i :: 0 <= i < |list| ==> Matches(list[i], q)
  {
    if |list| > 0 {
      KeepAllIffAllMatch(list[1..], q);
      if !Matches(list[0], q) {
        assert |Keep(list, q)| < |list| by { assert |Keep(list, q)| == |Keep(list[1..], q)|; }
      } else if Keep(list, q) == list {
        assert Keep(list[1..], q) == list[1..] by { assert Keep(list, q) == [list[0]] + Keep(list[1..], q); }
      }
      if forall i :: 0 <= i < |list| ==> Matches(list[i], q) {
        assert forall i :: 0 <= i < |list[1..]| ==> Matches(list[1..][i], q) by {
          forall i | 0 <= i < |list[1..]| ensures Matches(list[1..][i], q) {
            assert list[1..][i] == list[i + 1];
          }
        }
      }
    }
  }

  /** The list shown for a search box: everything for a blank query, the matching
      records otherwise. */
  function FilterButterflies(list: seq<Catalog.Butterfly>, q: string): (r: seq<Catalog.Butterfly>)
    ensures AllWhitespace(q) ==> r == list
    ensures !AllWhitespace(q) ==> forall b :: b in r <==> b in list && Matches(b, q)
    ensures !AllWhitespace(q) ==> forall b :: multiset(r)[b] == if Matches(b, q) then multiset(list)[b] else 0
  {
    TrimEmptyIffBlank(q);
    KeepCounts(list, q);
    if Trim(q) == [] then list else Keep(list, q)
  }

  /** The filtered list keeps the order of the loaded list. */
  lemma FilterIsSubsequence(list: seq<Catalog.Butterfly>, q: string)
    ensures SubsequenceOf(FilterButterflies(list, q), list)
  {
    if AllWhitespace(q) {
      SubsequenceOfSelf(list);
    } else {
      TrimEmptyIffBlank(q);
      KeepIsSubsequence(list, q);
    }
  }

  lemma {:induction false} SubsequenceOfSelf<T>(a: seq<T>)
    ensures SubsequenceOf(a, a)
  {
    if |a| > 0 {
      SubsequenceOfSelf(a[1..]);
    }
  }

  /** Filtering a filtered list with the same query changes nothing. */
  lemma FilterIdempotent(list: seq<Catalog.Butterfly>, q: string)
    ensures FilterButterflies(FilterButterflies(list, q), q) == FilterButterflies(list, q)
  {
    if !AllWhitespace(q) {
      var r := Keep(list, q);
      assert forall i :: 0 <= i < |r| ==> Matches(r[i], q) by {
        forall i | 0 <= i < |r| ensures Matches(r[i], q) {
          assert r[i] in r;
        }
      }
      KeepAllIffAllMatch(r, q);
    }
  }

  /** Lower-casing turns a character into a space only when it was a space. */
  lemma LowerSpace(c: char)
    ensures LowerChar(c) == ' ' <==> c == ' '
  {
  }

  /** The query is not trimmed before matching: a query holding a space matches
      no record whose names hold none. */
  lemma SpaceInQueryMatchesNothing(b: Catalog.Butterfly, q: string)
    requires ' ' in q && ' ' !in b.commonName && ' ' !in b.latinName
    ensures !Matches(b, q)
  {
    MatchesIffSpec(b, q);
    var k :| 0 <= k < |q| && q[k] == ' ';
    LowerSpace(q[k]);
    NoSpaceNoOccurrence(ToLower(q), ToLower(b.commonName), k);
    NoSpaceNoOccurrence(ToLower(q), ToLower(b.latinName), k);
  }

  /** Helper: a lower-cased string holding no lower-cased space cannot contain
      a pattern with a space at position `k`. */
  lemma NoSpaceNoOccurrence(t: string, s: string, k: nat)
    requires k < |t| && t[k] == ' ' && ' ' !in s
    ensures !OccursIn(t, s)
  {
  }

  /** `getDifficultyLabel` on the list: any integer outside 1..3 is "Unknown". */
  function Label(d: int): (r: string)
    ensures LevelOf(d).Some? ==> r == LevelName(LevelOf(d).value)
    ensures LevelOf(d).None? ==> r == "Unknown"
  {
    if d == 1 then "Easy"
    else if d == 2 then "Medium"
    else if d == 3 then "Hard"
    else "Unknown"
  }

  /** `getDifficultyColor` on the list: grey for any integer outside 1..3. */
  function Color(d: int): (r: string)
    ensures LevelOf(d).Some? ==> r == LevelColor(LevelOf(d).value)
    ensures LevelOf(d).None? ==> r == "#9E9E9E"
  {
    if d == 1 then "#4CAF50"
    else if d == 2 then "#FF9800"
    else if d == 3 then "#F44336"
    else "#9E9E9E"
  }

  /** Badge label and colour agree: two difficulties share a label exactly when
      they share a colour, and exactly when they are the same level or both
      unknown. */
  lemma LabelColorAgree(d: int, e: int)
    ensures Label(d) == Label(e) <==> LevelOf(d) == LevelOf(e)
    ensures Color(d) == Color(e) <==> LevelOf(d) == LevelOf(e)
  {
    if LevelOf(d).Some? && LevelOf(e).Some? {
      NamesAndColorsDistinct(LevelOf(d).value, LevelOf(e).value);
    } else if LevelOf(d) != LevelOf(e) {
      assert Label(d)[0] != Label(e)[0];
      assert Color(d)[1] != Color(e)[1] || Color(d)[2] != Color(e)[2];
    }
  }

  /** The count line: the number, a space, and "butterfly" only for exactly one. */
  function CountText(n: nat): (r: string)
    ensures StartsWith(r, Decimal(n) + " ")
  {
    Decimal(n) + " " + (if n == 1 then "butterfly" else "butterflies")
  }

  /** The noun is singular exactly for one, and the number reads back as `n`. */
  lemma CountTextReadsBack(n: nat)
    ensures EndsWith(CountText(n), "butterfly") <==> n == 1
    ensures ParseInt(CountText(n)) == Some(n)
  {
    var noun := if n == 1 then "butterfly" else "butterflies";
    assert CountText(n) == Decimal(n) + (" " + noun);
    ParseIntOfDecimal(n, " " + noun);
    if n != 1 {
      var s := CountText(n);
      assert s[|s| - 1] == 's';
    }
  }
}
