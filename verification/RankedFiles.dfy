// The ranking of retrieved files, and the scores at k computed from it.
module RankedFiles {
  import opened Listings
  import opened Options

  // ----- Names and match keys

  /** A source's file name or path as reported. */
  datatype Ident = Ident(text: string)

  /** A normalized name or a stem. */
  datatype Key = Key(text: string)

  /** How identifiers are normalized: None for a blank name, and the stem of a name, None if blank. */
  datatype Naming = Naming(name: Ident -> Option<Key>, stem: Key -> Option<Key>)

  /** The match keys of a file with this name. */
  function KeysOf(naming: Naming, name: Key): set<Key> {
    {name} + match naming.stem(name) case Some(stem) => {stem} case None => {}
  }

  /** The files one source names, in its order. */
  datatype Source = Source(files: seq<Ident>)

  const DERIVED_SOURCE_TYPES: set<string> := {"claim", "community", "entity", "relationship", "summary"}

  /** A file is matched by its name and by the name's stem, and by nothing else. */
  lemma KeysOfIff(naming: Naming, name: Key, key: Key)
    ensures key in KeysOf(naming, name) <==> key == name || naming.stem(name) == Some(key)
  {
  }

  // ----- The ranking

  /** Whether source `i` is of a derived type; the types may be fewer than the sources. */
  predicate IsDerived(types: seq<string>, i: nat) {
    i < |types| && types[i] in DERIVED_SOURCE_TYPES
  }

  /** The derived types are these five; a source without a type is none. */
  lemma DerivedIff(types: seq<string>, i: nat)
    ensures IsDerived(types, i)
            <==> && i < |types|
                 && (types[i] == "claim" || types[i] == "community" || types[i] == "entity"
                     || types[i] == "relationship" || types[i] == "summary")
  {
  }

  /** The first `n` sources that are derived, or those that are not, in rank order. */
  function Part(sources: seq<Source>, types: seq<string>, derived: bool, n: nat): seq<Source>
    requires n <= |sources|
  {
    if n == 0 then []
    else Part(sources, types, derived, n - 1) + if IsDerived(types, n - 1) == derived then [sources[n - 1]] else []
  }

  function Arranged(sources: seq<Source>, types: Option<seq<string>>): seq<Source> {
    match types
    case None => sources
    case Some(given) => Part(sources, given, false, |sources|) + Part(sources, given, true, |sources|)
  }

  /** The identifiers of the sources, one after another. */
  function Flat(sources: seq<Source>): seq<Ident> {
    if sources == [] then [] else Flat(sources[..|sources| - 1]) + sources[|sources| - 1].files
  }

  /** Each name once, where it first occurs. */
  function Ranked(naming: Naming, idents: seq<Ident>): seq<Key> {
    if idents == [] then []
    else
      var before := Ranked(naming, idents[..|idents| - 1]);
      match naming.name(idents[|idents| - 1])
      case Some(name) => if name in before then before else before + [name]
      case None => before
  }

  function Ranking(naming: Naming, sources: seq<Source>, types: Option<seq<string>>): seq<Key> {
    Ranked(naming, Flat(Arranged(sources, types)))
  }

  method Arrange(sources: seq<Source>, types: Option<seq<string>>) returns (arranged: seq<Source>)
    ensures arranged == Arranged(sources, types)
  {
    if types.None? {
      return sources;
    }
    var first, derived: seq<Source> := [], [];
    for i := 0 to |sources|
      invariant first == Part(sources, types.value, false, i)
      invariant derived == Part(sources, types.value, true, i)
    {
      if i < |types.value| && types.value[i] in DERIVED_SOURCE_TYPES {
        derived := derived + [sources[i]];
      } else {
        first := first + [sources[i]];
      }
    }
    arranged := first + derived;
  }

  /** The match keys of each ranked file. */
  function FileKeys(naming: Naming, names: seq<Key>): (files: seq<set<Key>>)
    ensures |files| == |names| && forall i :: 0 <= i < |names| ==> files[i] == KeysOf(naming, names[i])
  {
    if names == [] then []
    else FileKeys(naming, names[..|names| - 1]) + [KeysOf(naming, names[|names| - 1])]
  }

  /** The files and the names seen, once these identifiers are ranked. */
  ghost predicate Ranks(naming: Naming, idents: seq<Ident>, seen: set<Key>, files: seq<set<Key>>) {
    && (forall name :: name in seen <==> name in Ranked(naming, idents))
    && files == FileKeys(naming, Ranked(naming, idents))
  }

  lemma RankOne(naming: Naming, idents: seq<Ident>, x: Ident, seen: set<Key>, files: seq<set<Key>>)
    requires Ranks(naming, idents, seen, files)
    ensures match naming.name(x)
            case Some(name) =>
              if name in seen then Ranks(naming, idents + [x], seen, files)
              else Ranks(naming, idents + [x], seen + {name}, files + [KeysOf(naming, name)])
            case None => Ranks(naming, idents + [x], seen, files)
  {
    assert (idents + [x])[..|idents|] == idents;
    var names := Ranked(naming, idents);
    if naming.name(x).Some? && naming.name(x).value !in seen {
      assert (names + [naming.name(x).value])[..|names|] == names;
    }
  }

  method RankSource(naming: Naming, idents: seq<Ident>, seen: set<Key>, files: seq<set<Key>>, ghost before: seq<Ident>)
      returns (nowSeen: set<Key>, nowFiles: seq<set<Key>>)
    requires Ranks(naming, before, seen, files)
    ensures Ranks(naming, before + idents, nowSeen, nowFiles)
  {
    nowSeen, nowFiles := seen, files;
    assert before + idents[..0] == before;
    for j := 0 to |idents|
      invariant Ranks(naming, before + idents[..j], nowSeen, nowFiles)
    {
      RankOne(naming, before + idents[..j], idents[j], nowSeen, nowFiles);
      assert before + idents[..j] + [idents[j]] == before + idents[..j + 1];
      var name := naming.name(idents[j]);
      if name.Some? && name.value !in nowSeen {
        nowSeen := nowSeen + {name.value};
        nowFiles := nowFiles + [KeysOf(naming, name.value)];
      }
    }
    assert idents[..|idents|] == idents;
  }

  method RankFiles(naming: Naming, sources: seq<Source>, types: Option<seq<string>>) returns (files: seq<set<Key>>)
    ensures files == FileKeys(naming, Ranking(naming, sources, types))
  {
    var arranged := Arrange(sources, types);
    var seen: set<Key> := {};
    files := [];
    for i := 0 to |arranged|
      invariant Ranks(naming, Flat(arranged[..i]), seen, files)
    {
      seen, files := RankSource(naming, arranged[i].files, seen, files, Flat(arranged[..i]));
      assert arranged[..i + 1][..i] == arranged[..i];
    }
    assert arranged[..|arranged|] == arranged;
  }

  // ----- What the ranking holds

  lemma {:induction false} RankedGrows(naming: Naming, idents: seq<Ident>, more: seq<Ident>)
    ensures Ranked(naming, idents) <= Ranked(naming, idents + more)
  {
    if more == [] {
      assert idents + more == idents;
    } else {
      var n := |more| - 1;
      assert (idents + more)[..|idents + more| - 1] == idents + more[..n];
      RankedGrows(naming, idents, more[..n]);
    }
  }

  lemma FlatOne(sources: seq<Source>, last: Source)
    ensures Flat(sources + [last]) == Flat(sources) + last.files
  {
    assert (sources + [last])[..|sources|] == sources;
  }

  lemma Associates<T>(s: seq<T>, t: seq<T>, u: seq<T>)
    ensures (s + t) + u == s + (t + u)
  {
  }

  lemma {:induction false} FlatJoins(sources: seq<Source>, more: seq<Source>)
    ensures Flat(sources + more) == Flat(sources) + Flat(more)
  {
    if more == [] {
      assert sources + more == sources;
      assert Flat(sources) + [] == Flat(sources);
    } else {
      var rest, last := more[..|more| - 1], more[|more| - 1];
      assert more == rest + [last];
      calc {
        Flat(sources + more);
        { Associates(sources, rest, [last]); }
        Flat(sources + rest + [last]);
        { FlatOne(sources + rest, last); }
        Flat(sources + rest) + last.files;
        { FlatJoins(sources, rest); }
        Flat(sources) + Flat(rest) + last.files;
        { Associates(Flat(sources), Flat(rest), last.files); }
        Flat(sources) + (Flat(rest) + last.files);
        { FlatOne(rest, last); }
        Flat(sources) + Flat(more);
      }
    }
  }

  /** The ranking of the sources that are not derived is a prefix of the whole: derived files only come after. */
  lemma DerivedRankAfter(naming: Naming, sources: seq<Source>, types: seq<string>)
    ensures Ranking(naming, Part(sources, types, false, |sources|), None) <= Ranking(naming, sources, Some(types))
  {
    var first, derived := Part(sources, types, false, |sources|), Part(sources, types, true, |sources|);
    FlatJoins(first, derived);
    RankedGrows(naming, Flat(first), Flat(derived));
  }

  /** Some identifier carries the name. */
  ghost predicate IsNamed(naming: Naming, idents: seq<Ident>, name: Key) {
    exists i :: 0 <= i < |idents| && naming.name(idents[i]) == Some(name)
  }

  /** The names ranked are exactly the names carried, each once. */
  lemma {:induction false} RankedNames(naming: Naming, idents: seq<Ident>, name: Key)
    ensures name in Ranked(naming, idents) <==> IsNamed(naming, idents, name)
  {
    if idents != [] {
      var n := |idents| - 1;
      RankedNames(naming, idents[..n], name);
      if IsNamed(naming, idents[..n], name) {
        var i :| 0 <= i < n && naming.name(idents[..n][i]) == Some(name);
        assert naming.name(idents[i]) == Some(name);
      }
      if IsNamed(naming, idents, name) && naming.name(idents[n]) != Some(name) {
        var i :| 0 <= i < |idents| && naming.name(idents[i]) == Some(name);
        assert naming.name(idents[..n][i]) == Some(name);
      }
    }
  }

  lemma {:induction false} RankedDiffer(naming: Naming, idents: seq<Ident>, p: nat, q: nat)
    requires p < q < |Ranked(naming, idents)|
    ensures Ranked(naming, idents)[p] != Ranked(naming, idents)[q]
  {
    var before := Ranked(naming, idents[..|idents| - 1]);
    if q < |before| {
      RankedDiffer(naming, idents[..|idents| - 1], p, q);
    } else {
      assert Ranked(naming, idents)[p] == before[p];
    }
  }

  /** The first identifier that carries the name. */
  ghost predicate FirstNamed(naming: Naming, idents: seq<Ident>, name: Key, i: nat) {
    && i < |idents| && naming.name(idents[i]) == Some(name)
    && forall j :: 0 <= j < i ==> naming.name(idents[j]) != Some(name)
  }

  /** A name ranks before another exactly when it is named first. */
  lemma {:induction false} RankedByFirstNaming(naming: Naming, idents: seq<Ident>, p: nat, q: nat, i: nat, j: nat)
    requires p < |Ranked(naming, idents)| && q < |Ranked(naming, idents)|
    requires FirstNamed(naming, idents, Ranked(naming, idents)[p], i)
    requires FirstNamed(naming, idents, Ranked(naming, idents)[q], j)
    ensures p < q <==> i < j
  {
    if p == q {
      FirstIsOne(naming, idents, Ranked(naming, idents)[p], i, j);
    } else if p < q {
      EarlierNamedFirst(naming, idents, p, q, i, j);
    } else {
      EarlierNamedFirst(naming, idents, q, p, j, i);
    }
  }

  lemma FirstIsOne(naming: Naming, idents: seq<Ident>, name: Key, i: nat, j: nat)
    requires FirstNamed(naming, idents, name, i) && FirstNamed(naming, idents, name, j)
    ensures i == j
  {
  }

  lemma {:induction false} EarlierNamedFirst(naming: Naming, idents: seq<Ident>, p: nat, q: nat, i: nat, j: nat)
    requires p < q < |Ranked(naming, idents)|
    requires FirstNamed(naming, idents, Ranked(naming, idents)[p], i)
    requires FirstNamed(naming, idents, Ranked(naming, idents)[q], j)
    ensures i < j
  {
    var n := |idents| - 1;
    var before, all := Ranked(naming, idents[..n]), Ranked(naming, idents);
    RankedNames(naming, idents[..n], all[p]);
    assert all[p] == before[p];
    var x :| 0 <= x < n && naming.name(idents[..n][x]) == Some(all[p]);
    assert naming.name(idents[x]) == Some(all[p]);
    if q < |before| {
      RankedNames(naming, idents[..n], all[q]);
      var y :| 0 <= y < n && naming.name(idents[..n][y]) == Some(all[q]);
      assert naming.name(idents[y]) == Some(all[q]);
      EarlierNamedFirst(naming, idents[..n], p, q, i, j);
    } else {
      RankedNames(naming, idents[..n], all[q]);
      assert all[q] !in before;
      assert forall y :: 0 <= y < n ==> idents[..n][y] == idents[y];
    }
  }

  // ----- The rows by type

  /** The sources of one type, in rank order. */
  function OfType(sources: seq<Source>, types: seq<string>, t: string): seq<Source>
    requires |types| == |sources|
  {
    if sources == [] then []
    else
      var n := |sources| - 1;
      OfType(sources[..n], types[..n], t) + if types[n] == t then [sources[n]] else []
  }

  lemma {:induction false} FlatHolds(sources: seq<Source>, x: Ident)
    ensures x in Flat(sources) <==> exists s :: s in sources && x in s.files
  {
    if sources != [] {
      var n := |sources| - 1;
      assert sources == sources[..n] + [sources[n]];
      FlatHolds(sources[..n], x);
    }
  }

  lemma {:induction false} PartsHold(sources: seq<Source>, types: seq<string>, n: nat, s: Source)
    requires n <= |sources|
    ensures s in Part(sources, types, false, n) + Part(sources, types, true, n) <==> s in sources[..n]
  {
    if n > 0 {
      assert sources[..n] == sources[..n - 1] + [sources[n - 1]];
      PartsHold(sources, types, n - 1, s);
    }
  }

  lemma {:induction false} OfTypeHolds(sources: seq<Source>, types: seq<string>, t: string, i: nat)
    requires |types| == |sources| && i < |sources| && types[i] == t
    ensures sources[i] in OfType(sources, types, t)
  {
    var n := |sources| - 1;
    if i < n {
      OfTypeHolds(sources[..n], types[..n], t, i);
    }
  }

  lemma {:induction false} OfTypeIsPart(sources: seq<Source>, types: seq<string>, t: string, s: Source)
    requires |types| == |sources| && s in OfType(sources, types, t)
    ensures s in sources && t in types
  {
    var n := |sources| - 1;
    if s in OfType(sources[..n], types[..n], t) {
      OfTypeIsPart(sources[..n], types[..n], t, s);
    }
  }

  lemma NamedInSome(naming: Naming, sources: seq<Source>, name: Key)
    ensures name in Ranking(naming, sources, None)
            <==> exists s, x :: s in sources && x in s.files && naming.name(x) == Some(name)
  {
    var idents := Flat(sources);
    RankedNames(naming, idents, name);
    if name in Ranking(naming, sources, None) {
      var i :| 0 <= i < |idents| && naming.name(idents[i]) == Some(name);
      FlatHolds(sources, idents[i]);
    }
    if s, x :| s in sources && x in s.files && naming.name(x) == Some(name) {
      FlatHolds(sources, x);
    }
  }

  /** Every ranked file is in the row of some type, and a row ranks no other file. */
  lemma RowsCoverRanking(naming: Naming, sources: seq<Source>, types: seq<string>, name: Key)
    requires |types| == |sources|
    ensures name in Ranking(naming, sources, Some(types))
            <==> exists t :: t in types && name in Ranking(naming, OfType(sources, types, t), None)
  {
    var arranged := Arranged(sources, Some(types));
    assert Ranking(naming, sources, Some(types)) == Ranking(naming, arranged, None);
    NamedInSome(naming, arranged, name);
    if name in Ranking(naming, sources, Some(types)) {
      var s, x :| s in arranged && x in s.files && naming.name(x) == Some(name);
      PartsHold(sources, types, |sources|, s);
      assert sources[..|sources|] == sources;
      var i :| 0 <= i < |sources| && sources[i] == s;
      OfTypeHolds(sources, types, types[i], i);
      NamedInSome(naming, OfType(sources, types, types[i]), name);
    }
    if t :| t in types && name in Ranking(naming, OfType(sources, types, t), None) {
      NamedInSome(naming, OfType(sources, types, t), name);
      var s, x :| s in OfType(sources, types, t) && x in s.files && naming.name(x) == Some(name);
      OfTypeIsPart(sources, types, t, s);
      assert sources[..|sources|] == sources;
      PartsHold(sources, types, |sources|, s);
    }
  }

  // ----- The scores

  /** The references some of these files match. */
  ghost function Matched(files: seq<set<Key>>, references: set<Key>): set<Key> {
    set r | r in references && exists f :: f in files && r in f
  }

  function AtMost(files: seq<set<Key>>, k: nat): seq<set<Key>> {
    if k <= |files| then files[..k] else files
  }

  /** `first` is the rank, from 1, of the first file that matches a reference. */
  ghost predicate IsFirstRank(files: seq<set<Key>>, references: set<Key>, first: Option<nat>) {
    match first
    case Some(rank) =>
      && 1 <= rank <= |files| && files[rank - 1] * references != {}
      && forall i :: 0 <= i < rank - 1 ==> files[i] * references == {}
    case None => forall i :: 0 <= i < |files| ==> files[i] * references == {}
  }

  /** hit@k, the matched references of recall@k, and the rank MRR is the reciprocal of. */
  datatype Scores = Scores(hit: bool, matched: set<Key>, first: Option<nat>)

  ghost predicate AreScores(files: seq<set<Key>>, references: set<Key>, k: nat, s: Scores) {
    && s.matched == Matched(AtMost(files, k), references)
    && (s.hit <==> s.matched != {})
    && IsFirstRank(files, references, s.first)
  }

  method RankScores(files: seq<set<Key>>, references: set<Key>, k: nat) returns (s: Scores)
    ensures AreScores(files, references, k, s)
  {
    var top := AtMost(files, k);
    var matched := set r | r in references && exists f :: f in top && r in f;
    var first: Option<nat> := None;
    var rank: nat := 0;
    while rank < |files| && first.None?
      invariant rank <= |files|
      invariant first.None? ==> forall i :: 0 <= i < rank ==> files[i] * references == {}
      invariant first.Some? ==> IsFirstRank(files, references, first)
    {
      if files[rank] * references != {} {
        first := Some(rank + 1);
      }
      rank := rank + 1;
    }
    s := Scores(matched != {}, matched, first);
  }

  /** hit@k is 1 exactly when recall@k is above 0, and when the first match ranks within k. */
  lemma HitMeansRankWithinK(files: seq<set<Key>>, references: set<Key>, k: nat, s: Scores)
    requires AreScores(files, references, k, s)
    ensures s.hit <==> |s.matched| > 0
    ensures s.hit <==> s.first.Some? && s.first.value <= k
  {
    var top := AtMost(files, k);
    assert s.matched != {} ==> |s.matched| > 0;
    if s.hit {
      var r :| r in s.matched;
      var f :| f in top && r in f;
      var i :| 0 <= i < |top| && top[i] == f;
      assert r in files[i] * references;
    }
    if s.first.Some? && s.first.value <= k {
      var i := s.first.value - 1;
      var r :| r in files[i] * references;
      assert top[i] == files[i] && files[i] in top;
      assert r in s.matched;
    }
  }

  /** The reciprocal rank. */
  function Mrr(first: Option<nat>): real
    requires first.Some? ==> first.value >= 1
  {
    if first.Some? then 1.0 / first.value as real else 0.0
  }

  lemma Reciprocals(r: real, k: real)
    requires r > 0.0 && k > 0.0
    ensures 1.0 / r > 0.0
    ensures r <= k <==> 1.0 / r >= 1.0 / k
  {
    var x, y := 1.0 / r, 1.0 / k;
    assert x * r == 1.0 && y * k == 1.0;
    assert x > 0.0 && y > 0.0;
    if r <= k && x < y {
      assert x * r < y * r <= y * k;
    }
    if k < r && x >= y {
      assert y * k < y * r <= x * r;
    }
  }

  /** hit@k is 1 exactly when MRR is at least 1/k. */
  lemma HitMeansMrr(files: seq<set<Key>>, references: set<Key>, k: nat, s: Scores)
    requires AreScores(files, references, k, s) && k >= 1
    ensures s.hit <==> Mrr(s.first) >= 1.0 / k as real
  {
    HitMeansRankWithinK(files, references, k, s);
    Reciprocals(k as real, k as real);
    if s.first.Some? {
      Reciprocals(s.first.value as real, k as real);
    }
  }

  /** No score falls when files are ranked after those there are. */
  lemma LongerRankingScoresNoLess(files: seq<set<Key>>, more: seq<set<Key>>, references: set<Key>, k: nat,
                                  s: Scores, t: Scores)
    requires files <= more && AreScores(files, references, k, s) && AreScores(more, references, k, t)
    ensures s.hit ==> t.hit
    ensures s.matched <= t.matched && |s.matched| <= |t.matched|
    ensures s.first.Some? ==> t.first == s.first
    ensures Mrr(s.first) <= Mrr(t.first)
  {
    assert forall f :: f in AtMost(files, k) ==> f in AtMost(more, k);
    SubsetSize(s.matched, t.matched);
    if t.first.Some? {
      Reciprocals(t.first.value as real, t.first.value as real);
    }
  }

  lemma {:induction false} PrefixKeys(naming: Naming, names: seq<Key>, more: seq<Key>)
    requires names <= more
    ensures FileKeys(naming, names) <= FileKeys(naming, more)
  {
  }

  /** Derived sources never crowd out passages: at every k, no score is below the passages' own. */
  lemma DerivedNeverCrowdOut(naming: Naming, sources: seq<Source>, types: seq<string>, references: set<Key>, k: nat,
                             s: Scores, t: Scores)
    requires AreScores(FileKeys(naming, Ranking(naming, Part(sources, types, false, |sources|), None)), references, k, s)
    requires AreScores(FileKeys(naming, Ranking(naming, sources, Some(types))), references, k, t)
    ensures (s.hit ==> t.hit) && |s.matched| <= |t.matched| && Mrr(s.first) <= Mrr(t.first)
    ensures s.first.Some? ==> t.first == s.first
  {
    DerivedRankAfter(naming, sources, types);
    PrefixKeys(naming, Ranking(naming, Part(sources, types, false, |sources|), None),
               Ranking(naming, sources, Some(types)));
    LongerRankingScoresNoLess(FileKeys(naming, Ranking(naming, Part(sources, types, false, |sources|), None)),
                              FileKeys(naming, Ranking(naming, sources, Some(types))), references, k, s, t);
  }
}
