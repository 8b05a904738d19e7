/**
 * `make_it_unique` (one query over rows that share a truncated prefix) and
 * `unique_contact_slug` (one query for each candidate).
 */
module Identifiers {
  import opened Common
  import opened Decimal

  /** Python's `s[:k]`, where a negative k counts from the end. */
  function Slice(s: string, k: int): (r: string)
    ensures |r| <= |s| && r == s[..|r|]
    ensures |r| == if k >= |s| then |s| else if k >= 0 then k else if |s| + k >= 0 then |s| + k else 0
  {
    if k >= |s| then s
    else if k >= 0 then s[..k]
    else if |s| + k >= 0 then s[..|s| + k]
    else ""
  }

  /** A field without max_length, or with 0, is not truncated. */
  predicate Bounded(limit: Option<nat>) {
    limit.Some? && limit.value > 0
  }

  function Truncate(base: string, limit: Option<nat>): string {
    if Bounded(limit) then Slice(base, limit.value) else base
  }

  function LookupPrefix(value: string, limit: Option<nat>): string {
    if Bounded(limit)
    then Slice(value, if limit.value - 32 > 1 then limit.value - 32 else 1)
    else value
  }

  function Suffix(k: nat): string {
    "-" + Text(k)
  }

  /** The source's `fit`: candidate 0 is the value itself, candidate k carries suffix k. */
  function Candidate(value: string, limit: Option<nat>, k: nat): string {
    if k == 0 then value
    else if Bounded(limit) then Slice(value, limit.value - |Suffix(k)|) + Suffix(k)
    else value + Suffix(k)
  }

  predicate StartsWith(s: string, prefix: string) {
    prefix <= s
  }

  /** k is the first candidate outside the set. */
  ghost predicate FirstFree(value: string, limit: Option<nat>, taken: set<string>, k: nat) {
    && Candidate(value, limit, k) !in taken
    && forall i: nat | i < k :: Candidate(value, limit, i) in taken
  }

  /** The values of all rows but the excluded one. */
  function Occupied(table: map<int, string>, exclude: Option<int>): set<string> {
    set pk | pk in table && exclude != Some(pk) :: table[pk]
  }

  function Fetched(occupied: set<string>, prefix: string): set<string> {
    set v | v in occupied && StartsWith(v, prefix)
  }

  /** The query fetches the other rows' values that share the first max_length - 32 characters, or one at least. */
  lemma FetchedExactly(value: string, limit: Option<nat>, table: map<int, string>, exclude: Option<int>, v: string)
    ensures var n := if limit.None? || limit.value == 0 then |value|
                     else if limit.value <= 33 then Min(|value|, 1)
                     else Min(|value|, limit.value - 32);
            v in Fetched(Occupied(table, exclude), LookupPrefix(value, limit)) <==>
              && (exists pk | pk in table :: exclude != Some(pk) && table[pk] == v)
              && n <= |v| && v[..n] == value[..n]
  {
    var n := if limit.None? || limit.value == 0 then |value|
             else if limit.value <= 33 then Min(|value|, 1)
             else Min(|value|, limit.value - 32);
    assert LookupPrefix(value, limit) == value[..n];
    assert n <= |v| && v[..n] == value[..n] <==> value[..n] <= v;
  }

  // ---------- Suffixed candidates are pairwise different ----------

  lemma DashSplit(p: string, x: string, q: string, y: string)
    requires forall i | 0 <= i < |x| :: IsDigit(x[i])
    requires forall i | 0 <= i < |y| :: IsDigit(y[i])
    requires p + "-" + x == q + "-" + y
    ensures x == y
  {
    var s := p + "-" + x;
    assert s[|p|] == '-' && s[|q|] == '-';
    assert |p| == |q|;
    assert x == s[|p| + 1..] && y == s[|q| + 1..];
  }

  lemma SuffixesDiffer(value: string, limit: Option<nat>, i: nat, j: nat)
    requires 0 < i && 0 < j && Candidate(value, limit, i) == Candidate(value, limit, j)
    ensures i == j
  {
    var p := if Bounded(limit) then Slice(value, limit.value - |Suffix(i)|) else value;
    var q := if Bounded(limit) then Slice(value, limit.value - |Suffix(j)|) else value;
    assert Candidate(value, limit, i) == p + "-" + Text(i);
    assert Candidate(value, limit, j) == q + "-" + Text(j);
    DashSplit(p, Text(i), q, Text(j));
    TextInjective(i, j);
  }

  ghost function SuffixedUpTo(value: string, limit: Option<nat>, n: nat): set<string> {
    set i: nat | 0 < i <= n :: Candidate(value, limit, i)
  }

  lemma SuffixedGrows(value: string, limit: Option<nat>, n: nat)
    ensures SuffixedUpTo(value, limit, n + 1) == SuffixedUpTo(value, limit, n) + {Candidate(value, limit, n + 1)}
  {}

  lemma NextSuffixIsNew(value: string, limit: Option<nat>, n: nat)
    ensures Candidate(value, limit, n + 1) !in SuffixedUpTo(value, limit, n)
  {
    forall i: nat | 0 < i <= n && Candidate(value, limit, i) == Candidate(value, limit, n + 1)
      ensures false
    {
      SuffixesDiffer(value, limit, i, n + 1);
    }
  }

  lemma {:induction false} SuffixedCount(value: string, limit: Option<nat>, n: nat)
    ensures |SuffixedUpTo(value, limit, n)| == n
  {
    if n == 0 {
      assert SuffixedUpTo(value, limit, 0) == {};
    } else {
      SuffixedCount(value, limit, n - 1);
      NextSuffixIsNew(value, limit, n - 1);
      SuffixedGrows(value, limit, n - 1);
    }
  }

  /** Pigeonhole: a set can hold at most as many suffixed candidates as it has members. */
  lemma TakenSuffixesBound(value: string, limit: Option<nat>, taken: set<string>, n: nat)
    requires forall i: nat | 0 < i <= n :: Candidate(value, limit, i) in taken
    ensures n <= |taken|
  {
    SuffixedCount(value, limit, n);
    SubsetSize(SuffixedUpTo(value, limit, n), taken);
  }

  // ---------- When the prefix filter is sound ----------

  /**
   * The table already holds the value and every candidate up to one that no
   * longer shares the fetched prefix.
   */
  ghost predicate Exhausted(value: string, limit: Option<nat>, occupied: set<string>) {
    exists k: nat :: SuffixLeavesPrefix(value, limit, occupied, k)
  }

  ghost predicate SuffixLeavesPrefix(value: string, limit: Option<nat>, occupied: set<string>, k: nat) {
    && !StartsWith(Candidate(value, limit, k), LookupPrefix(value, limit))
    && forall i: nat | i <= k :: Candidate(value, limit, i) in occupied
  }

  /** The result is taken in the whole table exactly when the table is exhausted in that sense. */
  lemma ResultTakenExactly(value: string, limit: Option<nat>, occupied: set<string>, k: nat)
    requires FirstFree(value, limit, Fetched(occupied, LookupPrefix(value, limit)), k)
    ensures Candidate(value, limit, k) in occupied <==> Exhausted(value, limit, occupied)
  {
    var prefix := LookupPrefix(value, limit);
    if Candidate(value, limit, k) in occupied {
      assert SuffixLeavesPrefix(value, limit, occupied, k);
    }
    if Exhausted(value, limit, occupied) {
      var e: nat :| SuffixLeavesPrefix(value, limit, occupied, e);
      assert Candidate(value, limit, e) !in Fetched(occupied, prefix);
      assert k <= e;
    }
  }

  /** A suffix of at most min(32, max_length - 1) characters keeps the fetched prefix. */
  lemma ShortSuffixKeepsPrefix(value: string, limit: Option<nat>, k: nat)
    requires Bounded(limit) && k > 0 ==> |Suffix(k)| <= 32 && |Suffix(k)| < limit.value
    ensures StartsWith(Candidate(value, limit, k), LookupPrefix(value, limit))
  {
    if k > 0 && Bounded(limit) {
      var head := Slice(value, limit.value - |Suffix(k)|);
      var prefix := LookupPrefix(value, limit);
      assert |prefix| <= |head|;
      assert prefix == value[..|prefix|] == head[..|prefix|];
      assert Candidate(value, limit, k)[..|prefix|] == prefix;
    }
  }

  /** Digits left for the counter: 31, or fewer in a field of at most 32 characters. */
  function CounterDigits(limit: nat): nat {
    if limit >= 33 then 31 else if limit >= 2 then limit - 2 else 0
  }

  lemma SmallTableSuffix(limit: nat, rows: nat, k: nat)
    requires CounterDigits(limit) > 0 && rows < Pow10(CounterDigits(limit))
    ensures 0 < k <= rows ==> |Suffix(k)| <= 32 && |Suffix(k)| < limit
    ensures 0 < k <= rows + 1 ==> |Suffix(k)| <= limit
  {
    var d := CounterDigits(limit);
    if 0 < k <= rows {
      TextLength(k, d);
    }
    if 0 < k <= rows + 1 {
      assert k < Pow10(d + 1);
      TextLength(k, d + 1);
    }
  }

  /**
   * Stated bound: below 10^31 rows (10^(max_length - 2) for a short field) the
   * result fits, is free in the whole table, and needs at most |table| + 1 suffixes.
   */
  lemma MakeItUniqueIsSafe(value: string, limit: Option<nat>, occupied: set<string>, k: nat)
    requires FirstFree(value, limit, Fetched(occupied, LookupPrefix(value, limit)), k)
    requires Bounded(limit) ==>
               && |value| <= limit.value
               && CounterDigits(limit.value) > 0
               && |occupied| < Pow10(CounterDigits(limit.value))
    ensures Candidate(value, limit, k) !in occupied
    ensures k <= |occupied| + 1
    ensures Bounded(limit) ==> |Candidate(value, limit, k)| <= limit.value
  {
    var fetched := Fetched(occupied, LookupPrefix(value, limit));
    if k > 0 {
      TakenSuffixesBound(value, limit, fetched, k - 1);
      SubsetSize(fetched, occupied);
    }
    if Exhausted(value, limit, occupied) {
      var e: nat :| SuffixLeavesPrefix(value, limit, occupied, e);
      TakenSuffixesBound(value, limit, occupied, e);
      if Bounded(limit) {
        SmallTableSuffix(limit.value, |occupied|, e);
      }
      ShortSuffixKeepsPrefix(value, limit, e);
      assert false;
    }
    ResultTakenExactly(value, limit, occupied, k);
    if Bounded(limit) {
      SmallTableSuffix(limit.value, |occupied|, k);
    }
  }

  /** The result fits the field exactly when its suffix does. */
  lemma ResultFitsExactly(value: string, limit: nat, k: nat)
    requires limit > 0 && k > 0 && |value| <= limit
    ensures |Candidate(value, Some(limit), k)| <= limit <==> |Suffix(k)| <= limit
  {
  }

  /**
   * Without the bound the filter is unsound: a field of two characters, which the
   * function accepts although the program has none, and two rows.
   */
  lemma TwoCharacterFieldClashes()
    ensures var table := map[1 := "ab", 2 := "-1"];
            var occupied := Occupied(table, None);
            && FirstFree("ab", Some(2), Fetched(occupied, LookupPrefix("ab", Some(2))), 1)
            && Candidate("ab", Some(2), 1) in occupied
  {
    var table := map[1 := "ab", 2 := "-1"];
    var occupied := Occupied(table, None);
    assert table[1] in occupied && table[2] in occupied;
    assert Text(1) == "1";
    assert Suffix(1) == "-1";
    assert LookupPrefix("ab", Some(2)) == "a";
    assert Slice("ab", 0) == "";
    assert Candidate("ab", Some(2), 1) == "-1";
    assert "ab"[..1] == "a" && "-1"[0] != "a"[0];
  }

  // ---------- The fast form refines the simple one ----------

  /**
   * Both searches walk the same candidates. They agree exactly when the fetched
   * set was enough, and then they return the same string.
   */
  lemma FastFormAgreesExactly(value: string, limit: Option<nat>, occupied: set<string>, fast: nat, slow: nat)
    requires FirstFree(value, limit, Fetched(occupied, LookupPrefix(value, limit)), fast)
    requires FirstFree(value, limit, occupied, slow)
    ensures fast == slow <==> !Exhausted(value, limit, occupied)
    ensures !Exhausted(value, limit, occupied) ==>
              Candidate(value, limit, fast) == Candidate(value, limit, slow)
  {
    ResultTakenExactly(value, limit, occupied, fast);
    assert fast <= slow;
  }

  const SLUG_LENGTH: nat := 50

  /** A base of at most 50 characters: the two routines give the same slug. */
  lemma SameSlug(base: string, occupied: set<string>, fast: nat, slow: nat)
    requires |base| <= SLUG_LENGTH && |occupied| < Pow10(31)
    requires var value := Truncate(base, Some(SLUG_LENGTH));
             FirstFree(value, Some(SLUG_LENGTH), Fetched(occupied, LookupPrefix(value, Some(SLUG_LENGTH))), fast)
    requires FirstFree(base, Some(SLUG_LENGTH), occupied, slow)
    ensures Candidate(Truncate(base, Some(SLUG_LENGTH)), Some(SLUG_LENGTH), fast) ==
            Candidate(base, Some(SLUG_LENGTH), slow)
  {
    assert Truncate(base, Some(SLUG_LENGTH)) == base;
    MakeItUniqueIsSafe(base, Some(SLUG_LENGTH), occupied, fast);
    ResultTakenExactly(base, Some(SLUG_LENGTH), occupied, fast);
    FastFormAgreesExactly(base, Some(SLUG_LENGTH), occupied, fast, slow);
  }

  // ---------- The two searches ----------

  /** The candidate a search over `taken` stops at, within one more step than `taken` has members. */
  ghost predicate SearchResult(value: string, limit: Option<nat>, taken: set<string>, candidate: string, k: nat) {
    FirstFree(value, limit, taken, k) && candidate == Candidate(value, limit, k) && k <= |taken| + 1
  }

  /** A value that no row but the excluded one holds is returned as it is. */
  ghost predicate KeepsFreeValue(value: string, table: map<int, string>, exclude: Option<int>, candidate: string) {
    (forall pk | pk in table && exclude != Some(pk) :: table[pk] != value) ==> candidate == value
  }

  /** The value itself, or as much of it as leaves room for a dash and a counter, followed by these. */
  ghost predicate IsCut(value: string, limit: Option<nat>, candidate: string) {
    || candidate == value
    || exists k: nat, n: nat ::
         && k > 0 && n <= |value| && candidate == value[..n] + ("-" + Text(k))
         && (limit.None? || limit.value == 0 ==> n == |value|)
         && (limit.Some? && limit.value > |Text(k)| ==> n == Min(|value|, limit.value - |Text(k)| - 1))
  }

  lemma CandidateIsCut(value: string, limit: Option<nat>, k: nat)
    ensures IsCut(value, limit, Candidate(value, limit, k))
  {
    if k > 0 {
      var n := if Bounded(limit) then |Slice(value, limit.value - |Suffix(k)|)| else |value|;
      assert value[..|value|] == value;
      assert Candidate(value, limit, k) == value[..n] + ("-" + Text(k));
    }
  }

  function Min(a: int, b: int): int {
    if a < b then a else b
  }

  lemma OccupiedSize(table: map<int, string>, exclude: Option<int>)
    ensures |Occupied(table, exclude)| <= |table|
    ensures forall pk | pk in table && exclude != Some(pk) :: table[pk] in Occupied(table, exclude)
    decreases |table|
  {
    if pk :| pk in table {
      var rest := table - {pk};
      assert rest.Keys == table.Keys - {pk} && |rest| == |table| - 1;
      OccupiedSize(rest, exclude);
      var more := Occupied(rest, exclude) + {table[pk]};
      assert Occupied(table, exclude) <= more;
      SubsetSize(Occupied(table, exclude), more);
    } else {
      assert Occupied(table, exclude) == {};
    }
  }

  /** core/utils/identifiers.py: one query, then a search in the fetched set. */
  method MakeItUnique(base: string, limit: Option<nat>, table: map<int, string>, exclude: Option<int>)
    returns (candidate: string)
    ensures var value := Truncate(base, limit);
            exists k: nat ::
              SearchResult(value, limit, Fetched(Occupied(table, exclude), LookupPrefix(value, limit)), candidate, k)
    ensures KeepsFreeValue(if Bounded(limit) && |base| > limit.value then base[..limit.value] else base, table, exclude,
                           candidate)
    ensures IsCut(if Bounded(limit) && |base| > limit.value then base[..limit.value] else base, limit, candidate)
    ensures (Bounded(limit) ==> CounterDigits(limit.value) > 0 && |table| < Pow10(CounterDigits(limit.value))) ==>
              forall pk | pk in table && exclude != Some(pk) :: table[pk] != candidate
    ensures candidate in Occupied(table, exclude) <==> Exhausted(Truncate(base, limit), limit, Occupied(table, exclude))
    ensures Bounded(limit) && CounterDigits(limit.value) > 0
            && |Occupied(table, exclude)| < Pow10(CounterDigits(limit.value)) ==>
              candidate !in Occupied(table, exclude) && |candidate| <= limit.value
    ensures !Bounded(limit) ==> candidate !in Occupied(table, exclude)
  {
    var value := base;
    if Bounded(limit) {
      value := Slice(value, limit.value);
    }
    var existing := Fetched(Occupied(table, exclude), LookupPrefix(value, limit));
    candidate := value;
    ghost var k: nat := 0;
    var counter := 1;
    while candidate in existing
      invariant counter >= 1 && counter == k + 1
      invariant candidate == Candidate(value, limit, k)
      invariant forall i: nat | i < k :: Candidate(value, limit, i) in existing
      invariant k <= |existing| + 1
      decreases |existing| + 2 - k
    {
      TakenSuffixesBound(value, limit, existing, k);
      var suffixText := "-" + Text(counter);
      candidate := (if Bounded(limit) then Slice(value, limit.value - |suffixText|) else value) + suffixText;
      k := counter;
      counter := counter + 1;
    }
    assert value == Truncate(base, limit);
    assert SearchResult(Truncate(base, limit), limit,
                        Fetched(Occupied(table, exclude), LookupPrefix(Truncate(base, limit), limit)), candidate, k);
    MakeItUniqueOutcome(value, limit, Occupied(table, exclude), k);
    OccupiedSize(table, exclude);
    CandidateIsCut(value, limit, k);
  }

  lemma MakeItUniqueOutcome(value: string, limit: Option<nat>, occupied: set<string>, k: nat)
    requires FirstFree(value, limit, Fetched(occupied, LookupPrefix(value, limit)), k)
    requires Bounded(limit) ==> |value| <= limit.value
    ensures Candidate(value, limit, k) in occupied <==> Exhausted(value, limit, occupied)
    ensures Bounded(limit) && CounterDigits(limit.value) > 0 && |occupied| < Pow10(CounterDigits(limit.value)) ==>
              Candidate(value, limit, k) !in occupied && |Candidate(value, limit, k)| <= limit.value
    ensures !Bounded(limit) ==> Candidate(value, limit, k) !in occupied
  {
    ResultTakenExactly(value, limit, occupied, k);
    if Bounded(limit) ==> CounterDigits(limit.value) > 0 && |occupied| < Pow10(CounterDigits(limit.value)) {
      MakeItUniqueIsSafe(value, limit, occupied, k);
    }
  }

  /** contacts/services.py: one query for each candidate against the same occupied set. */
  method UniqueContactSlug(slugified: string, occupied: set<string>) returns (candidate: string)
    ensures candidate !in occupied
    ensures var base := if slugified == "" then "contact" else slugified;
            && (exists k: nat :: SearchResult(base, Some(SLUG_LENGTH), occupied, candidate, k))
            && IsCut(base, Some(50), candidate) && (base !in occupied ==> candidate == base)
  {
    var base := if slugified == "" then "contact" else slugified;
    candidate := base;
    var suffix := 1;
    ghost var k: nat := 0;
    while candidate in occupied
      invariant suffix >= 1 && suffix == k + 1
      invariant candidate == Candidate(base, Some(SLUG_LENGTH), k)
      invariant forall i: nat | i < k :: Candidate(base, Some(SLUG_LENGTH), i) in occupied
      invariant k <= |occupied| + 1
      decreases |occupied| + 2 - k
    {
      TakenSuffixesBound(base, Some(SLUG_LENGTH), occupied, k);
      var suffixText := "-" + Text(suffix);
      candidate := Slice(base, 50 - |suffixText|) + suffixText;
      k := suffix;
      suffix := suffix + 1;
    }
    assert SearchResult(base, Some(SLUG_LENGTH), occupied, candidate, k);
    CandidateIsCut(base, Some(SLUG_LENGTH), k);
  }
}
