/** The anchor disambiguator of the documentation check
    (tools/checks/check_docs_integrity.py): each heading's slug becomes an id no
    earlier heading took. The code remembers a counter for each slug and starts
    from there; the rule it must agree with looks for the smallest free suffix
    from nothing. */
module Anchors {
  import opened Positional

  // -----------------------------------------------------------------
  // Suffixed slugs

  function Numerals(digits: seq<nat>): (text: string)
    requires forall i :: 0 <= i < |digits| ==> digits[i] < 10
    ensures |text| == |digits|
    ensures forall i :: 0 <= i < |text| ==> text[i] as int == '0' as int + digits[i]
  {
    seq(|digits|, i requires 0 <= i < |digits| => (('0' as int) + digits[i]) as char)
  }

  /** The slug itself, then the slug with -1, -2 and so on. */
  function Candidate(base: string, k: nat): string {
    if k == 0 then base else base + "-" + Numerals(DigitsOf(10, k))
  }

  /** A decimal numeral's value. */
  ghost function Decimal(text: string): int {
    if text == "" then 0
    else Decimal(text[..|text| - 1]) * 10 + (text[|text| - 1] as int - '0' as int)
  }

  lemma {:induction false} NumeralsRead(digits: seq<nat>)
    requires InBase(10, digits)
    ensures Decimal(Numerals(digits)) == ValueIn(10, digits)
  {
    if digits != [] {
      var n := |digits| - 1;
      NumeralsRead(digits[..n]);
      assert Numerals(digits)[..n] == Numerals(digits[..n]);
    }
  }

  /** The first heading keeps its slug, and each later one adds a hyphen and its
      number in decimal, with no leading zero. */
  lemma CandidateReads(base: string, k: nat)
    ensures k == 0 ==> Candidate(base, k) == base
    ensures k > 0 ==>
              var id := Candidate(base, k);
              && |id| > |base| + 1 && id[..|base|] == base && id[|base|] == '-'
              && (forall i :: |base| < i < |id| ==> '0' <= id[i] <= '9') && id[|base| + 1] != '0'
              && Decimal(id[|base| + 1..]) == k
  {
    if k > 0 {
      var digits := DigitsOf(10, k);
      NumeralsRead(digits);
      ValueOfDigits(10, k);
      assert Candidate(base, k) == base + "-" + Numerals(digits);
      assert Candidate(base, k)[|base| + 1..] == Numerals(digits);
    }
  }

  lemma NumeralsDiffer(a: seq<nat>, b: seq<nat>)
    requires InBase(10, a) && InBase(10, b) && Numerals(a) == Numerals(b)
    ensures a == b
  {
    forall i | 0 <= i < |a|
      ensures a[i] == b[i]
    {
      assert Numerals(a)[i] == Numerals(b)[i];
    }
  }

  /** No two suffixes of a slug read alike. */
  lemma CandidatesDiffer(base: string, j: nat, k: nat)
    requires Candidate(base, j) == Candidate(base, k)
    ensures j == k
  {
    if j != 0 && k != 0 {
      var a, b := DigitsOf(10, j), DigitsOf(10, k);
      var stem := base + "-";
      assert Numerals(a) == Candidate(base, j)[|stem|..];
      assert Numerals(b) == Candidate(base, k)[|stem|..];
      NumeralsDiffer(a, b);
      ValueOfDigits(10, j);
      ValueOfDigits(10, k);
    }
  }

  // -----------------------------------------------------------------
  // The rule

  /** `id` is the slug with the smallest suffix that nothing in `taken` has. */
  ghost predicate SmallestFree(base: string, taken: seq<string>, id: string) {
    exists k: nat :: IsSmallest(base, taken, id, k)
  }

  ghost predicate IsSmallest(base: string, taken: seq<string>, id: string, k: nat) {
    id == Candidate(base, k) && id !in taken && AllTaken(base, taken, k)
  }

  ghost predicate AllTaken(base: string, taken: seq<string>, k: nat) {
    forall j :: 0 <= j < k ==> Candidate(base, j) in taken
  }

  /** `given` are the ids of the headings with these slugs. */
  ghost predicate FollowsRule(slugs: seq<string>, given: seq<string>) {
    && |given| == |slugs|
    && (slugs != [] ==>
          var n := |slugs| - 1;
          FollowsRule(slugs[..n], given[..n]) && SmallestFree(slugs[n], given[..n], given[n]))
  }

  lemma SmallestIsUnique(base: string, taken: seq<string>, x: string, y: string)
    requires SmallestFree(base, taken, x) && SmallestFree(base, taken, y)
    ensures x == y
  {
    var j: nat :| IsSmallest(base, taken, x, j);
    var k: nat :| IsSmallest(base, taken, y, k);
  }

  /** The rule leaves no choice. */
  lemma {:induction false} RuleIsUnique(slugs: seq<string>, a: seq<string>, b: seq<string>)
    requires FollowsRule(slugs, a) && FollowsRule(slugs, b)
    ensures a == b
  {
    if slugs != [] {
      var n := |slugs| - 1;
      RuleIsUnique(slugs[..n], a[..n], b[..n]);
      SmallestIsUnique(slugs[n], a[..n], a[n], b[n]);
      assert a == a[..n] + [a[n]] && b == b[..n] + [b[n]];
    }
  }

  /** Under the rule no two headings share an id. */
  lemma {:induction false} RuleGivesDistinctIds(slugs: seq<string>, given: seq<string>)
    requires FollowsRule(slugs, given)
    ensures forall i, j :: 0 <= i < j < |given| ==> given[i] != given[j]
  {
    if slugs != [] {
      var n := |slugs| - 1;
      RuleGivesDistinctIds(slugs[..n], given[..n]);
      assert forall i :: 0 <= i < n ==> given[i] in given[..n];
      assert forall i, j :: 0 <= i < j < n ==> given[..n][i] != given[..n][j];
    }
  }

  // -----------------------------------------------------------------
  // The loop

  /** Every counter stands where all smaller suffixes are taken. */
  ghost predicate Counted(seen: map<string, nat>, given: seq<string>) {
    forall base :: base in seen ==> AllTaken(base, given, seen[base])
  }

  ghost predicate SameIds(ids: set<string>, given: seq<string>) {
    forall id :: id in ids <==> id in given
  }

  lemma {:induction false} Pigeonhole(names: seq<string>, ids: set<string>)
    requires forall j :: 0 <= j < |names| ==> names[j] in ids
    requires forall i, j :: 0 <= i < j < |names| ==> names[i] != names[j]
    ensures |names| <= |ids|
  {
    if names != [] {
      var last := names[|names| - 1];
      Pigeonhole(names[..|names| - 1], ids - {last});
    }
  }

  /** There are as many ids as suffixes taken. */
  lemma TakenAreCounted(base: string, ids: set<string>, k: nat)
    requires forall j :: 0 <= j < k ==> Candidate(base, j) in ids
    ensures k <= |ids|
  {
    var names := seq(k, j requires 0 <= j < k => Candidate(base, j));
    forall i, j | 0 <= i < j < k
      ensures names[i] != names[j]
    {
      if Candidate(base, i) == Candidate(base, j) {
        CandidatesDiffer(base, i, j);
      }
    }
    Pigeonhole(names, ids);
  }

  /** The search for one heading's id, from the remembered counter on. */
  method Disambiguate(base: string, ids: set<string>, start: nat, ghost given: seq<string>)
    returns (candidate: string, count: nat)
    requires SameIds(ids, given) && AllTaken(base, given, start)
    ensures IsSmallest(base, given, candidate, count) && count >= start
  {
    count := start;
    candidate := Candidate(base, count);
    while candidate in ids
      invariant count >= start && candidate == Candidate(base, count)
      invariant AllTaken(base, given, count)
      decreases |ids| - count
    {
      TakenAreCounted(base, ids, count + 1);
      count := count + 1;
      candidate := Candidate(base, count);
    }
  }

  lemma CountedOnceMore(seen: map<string, nat>, given: seq<string>, base: string, count: nat, id: string)
    requires Counted(seen, given) && IsSmallest(base, given, id, count)
    ensures Counted(seen[base := count + 1], given + [id])
  {
    forall b, j | b in seen[base := count + 1] && 0 <= j < seen[base := count + 1][b]
      ensures Candidate(b, j) in given + [id]
    {
      if b == base && j == count {
        assert (given + [id])[|given|] == Candidate(b, j);
      } else if b == base {
        assert Candidate(b, j) in given;
      } else {
        assert Candidate(b, j) in given;
      }
    }
  }

  lemma RuleOnceMore(slugs: seq<string>, i: nat, given: seq<string>, id: string, count: nat)
    requires i < |slugs| && FollowsRule(slugs[..i], given) && IsSmallest(slugs[i], given, id, count)
    ensures FollowsRule(slugs[..i + 1], given + [id])
  {
    assert slugs[..i + 1][..i] == slugs[..i] && (given + [id])[..|given|] == given;
  }

  lemma OneMoreId(ids: set<string>, given: seq<string>, base: string, count: nat, id: string)
    requires SameIds(ids, given) && IsSmallest(base, given, id, count)
    ensures SameIds(ids + {id}, given + [id]) && |ids + {id}| == |ids| + 1
  {
  }

  /** One id for each heading: the ids the rule gives, and no others. */
  method AnchorIds(slugs: seq<string>) returns (ids: set<string>, ghost given: seq<string>)
    ensures FollowsRule(slugs, given)
    ensures SameIds(ids, given) && |ids| == |slugs|
  {
    ids, given := {}, [];
    var seen: map<string, nat> := map[];
    for i := 0 to |slugs|
      invariant FollowsRule(slugs[..i], given)
      invariant SameIds(ids, given) && |ids| == i
      invariant Counted(seen, given)
    {
      var base := slugs[i];
      var start := if base in seen then seen[base] else 0;
      var candidate, count := Disambiguate(base, ids, start, given);
      CountedOnceMore(seen, given, base, count, candidate);
      RuleOnceMore(slugs, i, given, candidate, count);
      OneMoreId(ids, given, base, count, candidate);
      seen := seen[base := count + 1];
      ids, given := ids + {candidate}, given + [candidate];
    }
    assert slugs[..|slugs|] == slugs;
  }
}
