// The heading ids of a Markdown page: repeated slugs get a numbered suffix.
module Slugs {
  import opened Decimals
  import opened Listings

  /** A heading's slug, or an HTML id. */
  datatype Slug = Slug(text: string)

  function Suffixed(base: Slug, n: nat): Slug {
    Slug(base.text + "-" + Decimal(n))
  }

  lemma SuffixesDiffer(base: Slug, m: nat, n: nat)
    requires Suffixed(base, m) == Suffixed(base, n)
    ensures m == n
  {
    SuffixInjective(base.text, m, base.text, n, '-');
  }

  /** The rule without counters: the slug itself if it is free, else with the least free number. */
  ghost predicate IsFree(slug: Slug, base: Slug, out: set<Slug>) {
    if base !in out then slug == base else exists n: nat :: IsLeastFree(base, n, out) && slug == Suffixed(base, n)
  }

  ghost predicate IsLeastFree(base: Slug, n: nat, out: set<Slug>) {
    n >= 1 && Suffixed(base, n) !in out && forall m :: 1 <= m < n ==> Suffixed(base, m) in out
  }

  lemma FreeIsNew(slug: Slug, base: Slug, out: set<Slug>)
    requires IsFree(slug, base, out)
    ensures slug !in out
  {
  }

  lemma FreeIsUnique(slug: Slug, other: Slug, base: Slug, out: set<Slug>)
    requires IsFree(slug, base, out) && IsFree(other, base, out)
    ensures slug == other
  {
    if base in out {
      var n: nat :| IsLeastFree(base, n, out) && slug == Suffixed(base, n);
      var m: nat :| IsLeastFree(base, m, out) && other == Suffixed(base, m);
    }
  }

  // ----- The counters

  function Count(seen: map<Slug, nat>, base: Slug): nat {
    if base in seen then seen[base] else 0
  }

  /** Every number a counter has passed is taken. */
  ghost predicate Counted(seen: map<Slug, nat>, out: set<Slug>) {
    forall base :: base in seen ==> TakenUpTo(base, seen[base], out)
  }

  ghost predicate TakenUpTo(base: Slug, n: nat, out: set<Slug>) {
    forall m :: 1 <= m <= n ==> Suffixed(base, m) in out
  }

  function SuffixesUpTo(base: Slug, n: nat): set<Slug> {
    if n == 0 then {} else SuffixesUpTo(base, n - 1) + {Suffixed(base, n)}
  }

  lemma {:induction false} SuffixesAreMany(base: Slug, n: nat, more: nat)
    requires n <= more
    ensures |SuffixesUpTo(base, n)| == n
    ensures n < more ==> Suffixed(base, more) !in SuffixesUpTo(base, n)
  {
    if n > 0 {
      SuffixesAreMany(base, n - 1, n);
      SuffixesAreMany(base, n - 1, more);
      if n < more && Suffixed(base, more) == Suffixed(base, n) {
        SuffixesDiffer(base, more, n);
      }
    }
  }

  lemma {:induction false} SuffixesWithin(base: Slug, n: nat, out: set<Slug>)
    requires TakenUpTo(base, n, out)
    ensures SuffixesUpTo(base, n) <= out
  {
    if n > 0 {
      SuffixesWithin(base, n - 1, out);
    }
  }

  /** A counter never passes the number of ids there are: what bounds the search for a free one. */
  lemma CounterIsBounded(base: Slug, n: nat, out: set<Slug>)
    requires TakenUpTo(base, n, out)
    ensures n <= |out|
  {
    SuffixesWithin(base, n, out);
    SuffixesAreMany(base, n, n);
    assert out == SuffixesUpTo(base, n) + (out - SuffixesUpTo(base, n));
  }

  /** The slug of one heading: the counter goes on from where the last repeat left it. */
  method NextSlug(base: Slug, seen: map<Slug, nat>, out: set<Slug>) returns (slug: Slug, now: map<Slug, nat>)
    requires Counted(seen, out)
    ensures IsFree(slug, base, out)
    ensures Counted(now, out + {slug})
  {
    slug, now := base, seen;
    while slug in out
      invariant slug == if Count(now, base) == Count(seen, base) then base else Suffixed(base, Count(now, base))
      invariant Count(now, base) > Count(seen, base) ==> base in out && TakenUpTo(base, Count(now, base) - 1, out)
      invariant Count(now, base) >= Count(seen, base)
      invariant forall other :: other in now && other != base ==> TakenUpTo(other, now[other], out)
      decreases |out| - Count(now, base)
    {
      assert TakenUpTo(base, Count(now, base), out);
      CounterIsBounded(base, Count(now, base), out);
      now := now[base := Count(now, base) + 1];
      slug := Suffixed(base, now[base]);
    }
    if Count(now, base) > Count(seen, base) {
      assert IsLeastFree(base, Count(now, base), out);
    }
    forall other | other in now
      ensures TakenUpTo(other, now[other], out + {slug})
    {
      if other == base && Count(now, base) == Count(seen, base) {
        assert TakenUpTo(base, Count(seen, base), out);
      }
    }
  }

  // ----- The page

  lemma ElementsNext(s: seq<Slug>, i: nat)
    requires i < |s|
    ensures Elements(s[..i + 1]) == Elements(s[..i]) + {s[i]}
  {
    assert s[..i + 1][..i] == s[..i];
  }

  /** `slugs` gives each heading, in turn, the id the rule without counters gives it. */
  ghost predicate FollowsRule(bases: seq<Slug>, slugs: seq<Slug>) {
    && |slugs| == |bases|
    && (bases == []
        || (var n := |bases| - 1;
            FollowsRule(bases[..n], slugs[..n]) && IsFree(slugs[n], bases[n], Elements(slugs[..n]))))
  }

  method HeadingIds(bases: seq<Slug>) returns (out: set<Slug>, slugs: seq<Slug>)
    ensures FollowsRule(bases, slugs) && out == Elements(slugs) && |out| == |bases|
  {
    var seen: map<Slug, nat> := map[];
    out, slugs := {}, [];
    for i := 0 to |bases|
      invariant FollowsRule(bases[..i], slugs) && out == Elements(slugs) && |out| == i
      invariant Counted(seen, out)
    {
      var slug, now := NextSlug(bases[i], seen, out);
      FreeIsNew(slug, bases[i], out);
      RuleGoesOn(bases, i, slugs, slug);
      seen, out, slugs := now, out + {slug}, slugs + [slug];
    }
    assert bases[..|bases|] == bases;
  }

  /** The ids of the headings, as many as there are headings, then the HTML ids found in the prose. */
  method Fragments(bases: seq<Slug>, htmlIds: seq<Slug>) returns (out: set<Slug>, slugs: seq<Slug>)
    ensures FollowsRule(bases, slugs)
    ensures |Elements(slugs)| == |bases|
    ensures out == Elements(slugs) + Elements(htmlIds)
  {
    out, slugs := HeadingIds(bases);
    for i := 0 to |htmlIds|
      invariant out == Elements(slugs) + Elements(htmlIds[..i])
    {
      ElementsNext(htmlIds, i);
      out := out + {htmlIds[i]};
    }
    assert htmlIds[..|htmlIds|] == htmlIds;
  }

  lemma RuleGoesOn(bases: seq<Slug>, i: nat, slugs: seq<Slug>, slug: Slug)
    requires i < |bases| && FollowsRule(bases[..i], slugs) && IsFree(slug, bases[i], Elements(slugs))
    ensures FollowsRule(bases[..i + 1], slugs + [slug])
    ensures Elements(slugs + [slug]) == Elements(slugs) + {slug}
  {
    assert bases[..i + 1][..i] == bases[..i] && (slugs + [slug])[..|slugs|] == slugs;
  }

  /** The rule leaves no choice: the counters only save the search, they do not change an id. */
  lemma {:induction false} RuleIsUnique(bases: seq<Slug>, slugs: seq<Slug>, others: seq<Slug>)
    requires FollowsRule(bases, slugs) && FollowsRule(bases, others)
    ensures slugs == others
  {
    if bases != [] {
      var n := |bases| - 1;
      RuleIsUnique(bases[..n], slugs[..n], others[..n]);
      FreeIsUnique(slugs[n], others[n], bases[n], Elements(slugs[..n]));
      assert slugs == slugs[..n] + [slugs[n]] && others == others[..n] + [others[n]];
    }
  }

  lemma {:induction false} RuleAt(bases: seq<Slug>, slugs: seq<Slug>, i: nat)
    requires FollowsRule(bases, slugs) && i < |bases|
    ensures IsFree(slugs[i], bases[i], Elements(slugs[..i]))
  {
    var n := |bases| - 1;
    if i < n {
      assert slugs[..n][..i] == slugs[..i];
      RuleAt(bases[..n], slugs[..n], i);
    }
  }

  /** Every heading has an id of its own. */
  lemma SlugsDiffer(bases: seq<Slug>, slugs: seq<Slug>, i: nat, j: nat)
    requires FollowsRule(bases, slugs) && i < j < |bases|
    ensures slugs[i] != slugs[j]
  {
    RuleAt(bases, slugs, j);
    FreeIsNew(slugs[j], bases[j], Elements(slugs[..j]));
    assert slugs[..j][i] == slugs[i];
  }

  /** A heading whose slug no earlier heading took as its id keeps it. */
  lemma FreshSlugIsKept(bases: seq<Slug>, slugs: seq<Slug>, i: nat)
    requires FollowsRule(bases, slugs) && i < |bases|
    requires forall j :: 0 <= j < i ==> slugs[j] != bases[i]
    ensures slugs[i] == bases[i]
  {
    RuleAt(bases, slugs, i);
  }
}
