/** Migration 0124: canonical Manager selectors. One snapshot per canonical scope and bucket
    survives, the newest, under the existing unique constraint. */
module UsageScopes {
  import opened Sequences
  import opened Text
  import opened Canonical

  datatype Snapshot = Snapshot(scope: string, bucket: string, calculatedAt: int, updatedAt: int, bytes: int)

  // ----- the selector grammar -----

  /** Digits with single underscores between digits, as `int()` accepts them. */
  predicate IsDigitGroup(s: string) {
    && s != "" && IsDigit(s[0]) && IsDigit(s[|s| - 1])
    && (forall i :: 0 <= i < |s| ==> IsDigit(s[i]) || s[i] == '_')
    && (forall i :: 0 < i < |s| ==> IsDigit(s[i - 1]) || IsDigit(s[i]))
  }

  function WithoutUnderscores(s: string): (r: string)
    requires forall i :: 0 <= i < |s| ==> IsDigit(s[i]) || s[i] == '_'
    ensures AllDigits(r)
  {
    if s == "" then "" else (if s[0] == '_' then "" else [s[0]]) + WithoutUnderscores(s[1..])
  }

  /** Python's `int(text)`: surrounding blanks, a sign, grouped digits. */
  function ParseInt(s: string): Option<int> {
    var t := Strip(s);
    var negative := t != "" && t[0] == '-';
    var body := if t != "" && (t[0] == '-' || t[0] == '+') then t[1..] else t;
    if !IsDigitGroup(body) then None
    else
      var value: int := DigitsValue(WithoutUnderscores(body));
      Some(if negative then -value else value)
  }

  function Prefix(s: string): string {
    if "conn-" <= s then "conn-" else if "s3u-" <= s then "s3u-" else ""
  }

  /** `_canonical_scope_id`. */
  function CanonicalScope(s: string): string {
    var prefix := Prefix(s);
    var suffix := s[|prefix|..];
    if prefix != "" && (suffix == "" || !AllDigits(suffix)) then s
    else
      match ParseInt(suffix)
      case None => s
      case Some(n) => if n > 0 then prefix + Decimal(n) else s
  }

  lemma {:induction false} NoUnderscores(s: string)
    requires AllDigits(s)
    ensures WithoutUnderscores(s) == s
  {
    if s != "" {
      NoUnderscores(s[1..]);
    }
  }

  lemma {:induction false} ParseDecimal(n: nat)
    ensures ParseInt(Decimal(n)) == Some(n)
  {
    var s := Decimal(n);
    StripOfTrimmed(s);
    NoUnderscores(s);
    DecimalValue(n);
  }

  lemma {:induction false} PrefixOfCanonical(prefix: string, n: nat)
    requires prefix == "conn-" || prefix == "s3u-" || prefix == ""
    ensures Prefix(prefix + Decimal(n)) == prefix
  {
    var s := prefix + Decimal(n);
    assert s[..|prefix|] == prefix;
    assert IsDigit(s[|prefix|]);
    if prefix == "" {
      assert "conn-"[0] == 'c' && "s3u-"[0] == 's';
    } else if prefix == "s3u-" {
      assert "conn-"[0] == 'c' && s[0] == 's';
    }
  }

  lemma ScopeIdempotent(s: string)
    ensures CanonicalScope(CanonicalScope(s)) == CanonicalScope(s)
  {
    var prefix := Prefix(s);
    var n := ParseInt(s[|prefix|..]);
    if CanonicalScope(s) != s {
      assert CanonicalScope(s) == prefix + Decimal(n.value);
      PrefixOfCanonical(prefix, n.value);
      assert (prefix + Decimal(n.value))[|prefix|..] == Decimal(n.value);
      ParseDecimal(n.value);
    }
  }

  // ----- which selectors are merged -----

  /** Digits, with single underscores between digits. */
  predicate Grouped(s: string) {
    s != "" && forall i :: 0 <= i < |s| ==> IsNumeral(s[i]) || (s[i] == '_' && IsBetweenNumerals(s, i))
  }

  predicate IsBetweenNumerals(s: string, i: int) {
    0 < i < |s| - 1 && IsNumeral(s[i - 1]) && IsNumeral(s[i + 1])
  }

  /** Blanks, perhaps a plus sign, grouped digits of value `n`, blanks. */
  ghost predicate Spells(s: string, n: int) {
    exists i, j :: 0 <= i < j <= |s| && SpelledBetween(s, n, i, j)
  }

  ghost predicate SpelledBetween(s: string, n: int, i: nat, j: nat)
    requires i < j <= |s|
  {
    var digits := if s[i] == '+' then s[i + 1..j] else s[i..j];
    IsBlank(s[..i]) && IsBlank(s[j..]) && Grouped(digits) && Value(digits) == n
  }

  /** The selector names the positive number `n`: after `conn-` or `s3u-` in plain digits, otherwise in any spelling. */
  ghost predicate Names(s: string, prefix: string, n: int) {
    && n > 0
    && if "conn-" <= s then prefix == "conn-" && PlainDigits(s[5..], n)
       else if "s3u-" <= s then prefix == "s3u-" && PlainDigits(s[4..], n)
       else prefix == "" && Spells(s, n)
  }

  /** The same text, or the same positive number under the same prefix. */
  ghost predicate SameSelector(a: string, b: string) {
    a == b || exists prefix, n :: Names(a, prefix, n) && Names(b, prefix, n)
  }

  /** The prefix and the number in plain digits without leading zeros. */
  ghost predicate IsSpelledOut(r: string, prefix: string, n: int) {
    prefix <= r && PlainDigits(r[|prefix|..], n) && r[|prefix|] != '0'
  }

  lemma {:induction false} WithoutLast(s: string)
    requires s != "" && forall i :: 0 <= i < |s| ==> IsDigit(s[i]) || s[i] == '_'
    ensures WithoutUnderscores(s) ==
            WithoutUnderscores(s[..|s| - 1]) + (if s[|s| - 1] == '_' then "" else [s[|s| - 1]])
  {
    if |s| > 1 {
      WithoutLast(s[1..]);
      assert s[1..][..|s| - 2] == s[..|s| - 1][1..];
    }
  }

  lemma {:induction false} ValueIs(s: string)
    requires forall i :: 0 <= i < |s| ==> IsDigit(s[i]) || s[i] == '_'
    ensures DigitsValue(WithoutUnderscores(s)) == Value(s)
  {
    if s != "" {
      WithoutLast(s);
      ValueIs(s[..|s| - 1]);
      var w := WithoutUnderscores(s[..|s| - 1]);
      if s[|s| - 1] == '_' {
        assert WithoutUnderscores(s) == w;
      } else {
        assert WithoutUnderscores(s) == w + [s[|s| - 1]];
        assert (w + [s[|s| - 1]])[..|w|] == w;
      }
    }
  }

  lemma GroupedIs(s: string)
    ensures Grouped(s) <==> IsDigitGroup(s)
  {
    if Grouped(s) {
      forall i | 0 < i < |s| ensures IsDigit(s[i - 1]) || IsDigit(s[i]) {
        assert !IsNumeral(s[i]) ==> IsNumeral(s[i - 1]);
      }
      assert IsNumeral(s[0]) && IsNumeral(s[|s| - 1]);
    }
    if IsDigitGroup(s) {
      forall i | 0 <= i < |s| && !IsNumeral(s[i])
        ensures s[i] == '_' && IsBetweenNumerals(s, i)
      {
        assert !IsDigit(s[i]) && 0 < i < |s| - 1 && IsDigit(s[i - 1]);
        var k := i + 1;
        assert IsDigit(s[k - 1]) || IsDigit(s[k]);
      }
    }
  }

  lemma ParseIffSpelled(s: string, n: int)
    requires n > 0
    ensures ParseInt(s) == Some(n) <==> Spells(s, n)
  {
    if ParseInt(s) == Some(n) {
      var i, j := StripCuts(s);
      var digits := if s[i..j][0] == '+' then s[i..j][1..] else s[i..j];
      assert s[i..j][0] == s[i] && s[i..j][1..] == s[i + 1..j];
      GroupedIs(digits);
      ValueIs(digits);
      assert SpelledBetween(s, n, i, j);
    }
    if Spells(s, n) {
      var i, j :| 0 <= i < j <= |s| && SpelledBetween(s, n, i, j);
      SpelledParses(s, n, i, j);
    }
  }

  lemma SpelledParses(s: string, n: int, i: nat, j: nat)
    requires n > 0 && i < j <= |s| && SpelledBetween(s, n, i, j)
    ensures ParseInt(s) == Some(n)
  {
    SpelledIsTrimmed(s, n, i, j);
    StripBetween(s, i, j);
    SpelledBodyParses(s, s[i..j], if s[i] == '+' then s[i + 1..j] else s[i..j], n);
  }

  lemma SpelledIsTrimmed(s: string, n: int, i: nat, j: nat)
    requires i < j <= |s| && SpelledBetween(s, n, i, j)
    ensures IsTrimmed(s[i..j])
  {
    var digits := if s[i] == '+' then s[i + 1..j] else s[i..j];
    GroupedIs(digits);
    assert s[i] == '+' || digits[0] == s[i];
    assert digits[|digits| - 1] == s[j - 1];
  }

  lemma {:induction false} SpelledBodyParses(s: string, t: string, digits: string, n: int)
    requires Strip(s) == t && t != "" && digits == (if t[0] == '+' then t[1..] else t)
    requires Grouped(digits) && Value(digits) == n
    ensures ParseInt(s) == Some(n)
  {
    GroupedIs(digits);
    ValueIs(digits);
  }

  lemma PlainIs(s: string, n: int)
    requires n > 0
    ensures PlainDigits(s, n) <==> s != "" && AllDigits(s) && ParseInt(s) == Some(n)
  {
    if s != "" && AllDigits(s) {
      StripOfTrimmed(s);
      ValueIs(s);
    }
  }

  lemma NamesIff(s: string, n: int)
    requires n > 0
    ensures Names(s, Prefix(s), n) <==> Reads(s, n)
    ensures forall prefix :: Names(s, prefix, n) ==> prefix == Prefix(s)
  {
    PlainIs(s[|Prefix(s)|..], n);
    ParseIffSpelled(s, n);
    assert Prefix(s) == "" ==> s[0..] == s;
  }

  /** The migration takes the selector for the number. */
  predicate Reads(s: string, n: int) {
    var suffix := s[|Prefix(s)|..];
    (Prefix(s) == "" || (suffix != "" && AllDigits(suffix))) && ParseInt(suffix) == Some(n)
  }

  /** A selector that names a number is written as its prefix and that number in plain digits; every other selector
      stays as it is. */
  lemma CanonicalSpelling(s: string)
    ensures forall prefix, n :: Names(s, prefix, n) ==> IsSpelledOut(CanonicalScope(s), prefix, n)
    ensures (forall prefix, n :: !Names(s, prefix, n)) ==> CanonicalScope(s) == s
  {
    forall prefix, n | Names(s, prefix, n) ensures IsSpelledOut(CanonicalScope(s), prefix, n) {
      NamesIff(s, n);
      var d := Decimal(n);
      ParseDecimal(n);
      PlainIs(d, n);
      assert (prefix + d)[|prefix|..] == d;
    }
    if CanonicalScope(s) != s {
      var n := ParseInt(s[|Prefix(s)|..]).value;
      NamesIff(s, n);
      assert Names(s, Prefix(s), n);
    }
  }

  lemma {:induction false} CanonicalIsNamed(prefix: string, n: int)
    requires n > 0 && (prefix == "conn-" || prefix == "s3u-" || prefix == "")
    ensures Names(prefix + Decimal(n), prefix, n)
  {
    PrefixOfCanonical(prefix, n);
    assert (prefix + Decimal(n))[|prefix|..] == Decimal(n);
    ParseDecimal(n);
    NamesIff(prefix + Decimal(n), n);
  }

  /** What a rewritten selector and its canonical form both name. */
  lemma NamesKept(s: string) returns (n: int)
    requires CanonicalScope(s) != s
    ensures Names(s, Prefix(s), n) && Names(CanonicalScope(s), Prefix(s), n)
  {
    n := ParseInt(s[|Prefix(s)|..]).value;
    NamesIff(s, n);
    CanonicalIsNamed(Prefix(s), n);
  }

  lemma NamesOnce(s: string, prefix: string, n: int, prefix': string, n': int)
    requires Names(s, prefix, n) && Names(s, prefix', n')
    ensures prefix == prefix' && n == n'
  {
    NamesIff(s, n);
    NamesIff(s, n');
  }

  /** Exactly the selectors that say the same are merged. */
  lemma MergedIff(a: string, b: string)
    ensures CanonicalScope(a) == CanonicalScope(b) <==> SameSelector(a, b)
  {
    if CanonicalScope(a) == CanonicalScope(b) && a != b {
      var c := CanonicalScope(a);
      if c == a {
        var n := NamesKept(b);
      } else if c == b {
        var n := NamesKept(a);
      } else {
        var n := NamesKept(a);
        var n' := NamesKept(b);
        NamesOnce(c, Prefix(a), n, Prefix(b), n');
      }
    } else if SameSelector(a, b) && a != b {
      var prefix, n :| Names(a, prefix, n) && Names(b, prefix, n);
      NamesIff(a, n);
      NamesIff(b, n);
    }
  }

  // ----- the table -----

  function KeyOf(r: Snapshot): (string, string) { (r.scope, r.bucket) }
  function Normal(r: Snapshot): Snapshot { r.(scope := CanonicalScope(r.scope)) }

  /** `a` comes before `b` in ORDER BY calculated_at DESC, updated_at DESC, id DESC. */
  predicate Newer(t: map<nat, Snapshot>, a: nat, b: nat)
    requires a in t && b in t
  {
    if t[a].calculatedAt != t[b].calculatedAt then t[a].calculatedAt > t[b].calculatedAt
    else if t[a].updatedAt != t[b].updatedAt then t[a].updatedAt > t[b].updatedAt
    else a > b
  }

  /** No snapshot of the same canonical scope and bucket is newer. */
  ghost predicate IsNewest(t: map<nat, Snapshot>, id: nat)
    requires id in t
  {
    forall other :: other in t && other != id && KeyOf(Normal(t[other])) == KeyOf(Normal(t[id])) ==> Newer(t, id, other)
  }

  /** A later snapshot by time of calculation, then of update, then by id, of the same selector and bucket. */
  ghost predicate Supersedes(t: map<nat, Snapshot>, other: nat, id: nat)
    requires other in t && id in t
  {
    var a, b := t[other], t[id];
    && a.bucket == b.bucket && SameSelector(a.scope, b.scope)
    && (a.calculatedAt > b.calculatedAt
        || (a.calculatedAt == b.calculatedAt && a.updatedAt > b.updatedAt)
        || (a.calculatedAt == b.calculatedAt && a.updatedAt == b.updatedAt && other > id))
  }

  lemma NewestIff(t: map<nat, Snapshot>, id: nat)
    requires id in t
    ensures IsNewest(t, id) <==> forall other :: other in t ==> !Supersedes(t, other, id)
  {
    forall other | other in t
      ensures Supersedes(t, other, id) <==>
              other != id && KeyOf(Normal(t[other])) == KeyOf(Normal(t[id])) && !Newer(t, id, other)
    {
      MergedIff(t[other].scope, t[id].scope);
    }
  }

  /** The scope is spelled out if it names a number, and nothing else changes. */
  ghost predicate IsRespelled(before: Snapshot, now: Snapshot) {
    && (forall prefix, n :: Names(before.scope, prefix, n) ==> IsSpelledOut(now.scope, prefix, n))
    && ((forall prefix, n :: !Names(before.scope, prefix, n)) ==> now.scope == before.scope)
    && now.bucket == before.bucket && now.bytes == before.bytes
    && now.calculatedAt == before.calculatedAt && now.updatedAt == before.updatedAt
  }

  lemma ScopesNormalize()
    ensures Normalizer(KeyOf, Normal)
  {
    forall r ensures KeyOf(Normal(Normal(r))) == KeyOf(Normal(r)) {
      ScopeIdempotent(r.scope);
    }
  }

  lemma FirstIsNewest(t: map<nat, Snapshot>, order: seq<nat>, i: nat)
    requires Lists(order, t.Keys) && i < |order|
    requires forall a, b :: 0 <= a < b < |order| ==> Newer(t, order[a], order[b])
    ensures IsFirst(KeyOf, Normal, t, order, i) <==> IsNewest(t, order[i])
  {
    if IsNewest(t, order[i]) {
      forall j | 0 <= j < i ensures KeyOf(Normal(t[order[j]])) != KeyOf(Normal(t[order[i]])) {
        assert Newer(t, order[j], order[i]) && !Newer(t, order[i], order[j]);
      }
    }
    if IsFirst(KeyOf, Normal, t, order, i) {
      forall other | other in t && other != order[i] && KeyOf(Normal(t[other])) == KeyOf(Normal(t[order[i]]))
        ensures Newer(t, order[i], other)
      {
        var j :| 0 <= j < |order| && order[j] == other;
      }
    }
  }

  /** 0124's `upgrade`: exactly the newest snapshot of every selector and bucket survives, its selector spelled out, and
      the unique constraint holds after every statement. */
  method UpgradeScopes(snapshots: KeyedTable<Snapshot, (string, string)>, order: seq<nat>)
      returns (ghost states: seq<map<nat, Snapshot>>, ghost duplicates: seq<nat>, ghost updates: seq<nat>)
    requires Lists(order, snapshots.table.Keys) && Unique(KeyOf, snapshots.table)
    requires forall a, b :: 0 <= a < b < |order| ==> Newer(snapshots.table, order[a], order[b])
    modifies snapshots
    ensures snapshots.table.Keys <= old(snapshots.table.Keys)
    ensures forall id :: id in old(snapshots.table) ==>
              (id in snapshots.table <==>
               forall other :: other in old(snapshots.table) ==> !Supersedes(old(snapshots.table), other, id))
    ensures forall id :: id in snapshots.table ==> IsRespelled(old(snapshots.table)[id], snapshots.table[id])
    ensures snapshots.table.Keys == set id | id in old(snapshots.table) && IsNewest(old(snapshots.table), id)
    ensures forall id :: id in snapshots.table ==> snapshots.table[id] == Normal(old(snapshots.table)[id])
    ensures forall id :: id in old(snapshots.table) ==> (id in duplicates <==> !IsNewest(old(snapshots.table), id))
    ensures DedupTrace(Normal, old(snapshots.table), duplicates, updates, states, snapshots.table)
    ensures AllUnique(KeyOf, states)
  {
    ghost var before := snapshots.table;
    ScopesNormalize();
    states, duplicates, updates := snapshots.Deduplicate(KeyOf, Normal, order);
    forall id | id in before
      ensures id in snapshots.table <==> IsNewest(before, id)
      ensures id in duplicates <==> !IsNewest(before, id)
    {
      var i :| 0 <= i < |order| && order[i] == id;
      FirstIsNewest(before, order, i);
      assert Classified(KeyOf, Normal, before, order, i, duplicates, updates);
    }
    forall id | id in before
      ensures IsNewest(before, id) <==> forall other :: other in before ==> !Supersedes(before, other, id)
      ensures IsRespelled(before[id], Normal(before[id]))
    {
      NewestIff(before, id);
      CanonicalSpelling(before[id].scope);
    }
  }

  /** A deleted snapshot has a surviving one that supersedes it. */
  lemma DeletedIsSuperseded(before: map<nat, Snapshot>, order: seq<nat>, id: nat) returns (winner: nat)
    requires Lists(order, before.Keys) && id in before && !IsNewest(before, id)
    requires forall a, b :: 0 <= a < b < |order| ==> Newer(before, order[a], order[b])
    ensures winner in before && IsNewest(before, winner) && Supersedes(before, winner, id)
  {
    winner := OnePerKey(before, order, id);
    MergedIff(before[winner].scope, before[id].scope);
  }

  /** Every canonical key keeps exactly one snapshot. */
  lemma OnePerKey(before: map<nat, Snapshot>, order: seq<nat>, id: nat) returns (winner: nat)
    requires Lists(order, before.Keys) && id in before
    requires forall a, b :: 0 <= a < b < |order| ==> Newer(before, order[a], order[b])
    ensures winner in before && KeyOf(Normal(before[winner])) == KeyOf(Normal(before[id])) && IsNewest(before, winner)
    ensures forall other ::
              other in before && IsNewest(before, other) &&
                KeyOf(Normal(before[other])) == KeyOf(Normal(before[id])) ==>
                other == winner
  {
    var i :| 0 <= i < |order| && order[i] == id;
    var w := FirstWithKey(before, order, i);
    winner := order[w];
    FirstIsNewest(before, order, w);
  }

  lemma {:induction false} FirstWithKey(t: map<nat, Snapshot>, order: seq<nat>, i: nat) returns (w: nat)
    requires i < |order| && forall j :: 0 <= j < |order| ==> order[j] in t
    ensures w <= i && KeyOf(Normal(t[order[w]])) == KeyOf(Normal(t[order[i]])) && IsFirst(KeyOf, Normal, t, order, w)
  {
    if IsFirst(KeyOf, Normal, t, order, i) {
      w := i;
    } else {
      var j :| 0 <= j < i && KeyOf(Normal(t[order[j]])) == KeyOf(Normal(t[order[i]]));
      w := FirstWithKey(t, order, j);
    }
  }
}
