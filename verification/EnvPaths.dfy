// The environment variable that sets a config key, and the key an environment variable names.
module EnvPaths {
  import opened Options

  // ----- Letters

  /** ASCII upper and lower case; other characters stay. */
  function UpperChar(c: char): char {
    if 'a' <= c <= 'z' then (c as int - 32) as char else c
  }

  function LowerChar(c: char): char {
    if 'A' <= c <= 'Z' then (c as int + 32) as char else c
  }

  function Upper(s: string): (u: string)
    ensures |u| == |s| && forall i :: 0 <= i < |s| ==> u[i] == UpperChar(s[i])
  {
    if s == "" then "" else Upper(s[..|s| - 1]) + [UpperChar(s[|s| - 1])]
  }

  function Lower(s: string): (l: string)
    ensures |l| == |s| && forall i :: 0 <= i < |s| ==> l[i] == LowerChar(s[i])
  {
    if s == "" then "" else Lower(s[..|s| - 1]) + [LowerChar(s[|s| - 1])]
  }

  predicate IsLower(s: string) {
    forall i :: 0 <= i < |s| ==> !('A' <= s[i] <= 'Z')
  }

  lemma LowerCharOfUpper(c: char)
    ensures LowerChar(UpperChar(c)) == LowerChar(c)
  {
  }

  lemma {:induction false} LowerOfUpper(s: string)
    ensures Lower(Upper(s)) == Lower(s)
  {
    if s != "" {
      var n := |s| - 1;
      LowerOfUpper(s[..n]);
      LowerCharOfUpper(s[n]);
      assert Upper(s)[..n] == Upper(s[..n]);
    }
  }

  /** Upper-casing keeps a text readable exactly when it holds no capital letter. */
  lemma {:induction false} ReadsLowerIff(s: string)
    ensures Lower(Upper(s)) == s <==> IsLower(s)
  {
    LowerOfUpper(s);
    if IsLower(s) {
      assert forall i :: 0 <= i < |s| ==> Lower(s)[i] == s[i];
    } else {
      var i :| 0 <= i < |s| && 'A' <= s[i] <= 'Z';
      assert Lower(s)[i] != s[i];
    }
  }

  // ----- Splitting at double underscores

  const SEP := "__"

  predicate StartsWithSep(s: string) {
    |s| >= 2 && s[0] == '_' && s[1] == '_'
  }

  /** Splits at the leftmost separators; `current` is the segment read so far. */
  function SplitFrom(current: string, s: string): (segments: seq<string>)
    ensures segments != []
    decreases |s|
  {
    if s == "" then [current]
    else if StartsWithSep(s) then [current] + SplitFrom("", s[2..])
    else SplitFrom(current + [s[0]], s[1..])
  }

  function Split(s: string): seq<string> {
    SplitFrom("", s)
  }

  function Join(segments: seq<string>): string {
    if segments == [] then "" else if |segments| == 1 then segments[0] else segments[0] + SEP + Join(segments[1..])
  }

  predicate HoldsSep(s: string) {
    exists i :: 0 <= i < |s| - 1 && s[i] == '_' && s[i + 1] == '_'
  }

  predicate EndsInUnderscore(s: string) {
    s != "" && s[|s| - 1] == '_'
  }

  /** No segment holds a separator, and none but the last ends in an underscore. */
  predicate IsClean(segments: seq<string>) {
    && (forall i :: 0 <= i < |segments| ==> !HoldsSep(segments[i]))
    && forall i :: 0 <= i < |segments| - 1 ==> !EndsInUnderscore(segments[i])
  }

  lemma {:induction false} SplitThenJoin(current: string, s: string)
    ensures Join(SplitFrom(current, s)) == current + s
    decreases |s|
  {
    if s == "" {
    } else if StartsWithSep(s) {
      SplitThenJoin("", s[2..]);
      var rest := SplitFrom("", s[2..]);
      assert ([current] + rest)[1..] == rest;
      assert s == SEP + s[2..];
    } else {
      SplitThenJoin(current + [s[0]], s[1..]);
      assert s == [s[0]] + s[1..];
    }
  }

  /** A text without separators is read into the current segment. */
  lemma {:induction false} ReadSegment(current: string, segment: string, rest: string)
    requires !HoldsSep(segment) && (rest == "" || (StartsWithSep(rest) && !EndsInUnderscore(segment)))
    ensures SplitFrom(current, segment + rest) == SplitFrom(current + segment, rest)
    decreases |segment|
  {
    var all := segment + rest;
    if segment == "" {
      assert all == rest && current + segment == current;
    } else {
      assert !StartsWithSep(all);
      assert all[1..] == segment[1..] + rest;
      TailHasNoSep(segment);
      ReadSegment(current + [all[0]], segment[1..], rest);
      assert current + [all[0]] + segment[1..] == current + segment;
    }
  }

  lemma TailHasNoSep(s: string)
    requires s != "" && !HoldsSep(s)
    ensures !HoldsSep(s[1..])
  {
    forall i | 0 <= i < |s[1..]| - 1
      ensures !(s[1..][i] == '_' && s[1..][i + 1] == '_')
    {
      assert !(s[i + 1] == '_' && s[i + 1 + 1] == '_');
    }
  }

  lemma RestIsClean(segments: seq<string>)
    requires segments != [] && IsClean(segments)
    ensures IsClean(segments[1..])
  {
    var rest := segments[1..];
    forall i | 0 <= i < |rest|
      ensures !HoldsSep(rest[i]) && (i < |rest| - 1 ==> !EndsInUnderscore(rest[i]))
    {
      assert rest[i] == segments[i + 1];
    }
  }

  /** A clean first segment splits off. */
  lemma SplitsOff(first: string, text: string)
    requires !HoldsSep(first) && !EndsInUnderscore(first)
    ensures Split(first + SEP + text) == [first] + Split(text)
  {
    var tail := SEP + text;
    assert tail[2..] == text && StartsWithSep(tail);
    ReadSegment("", first, tail);
    assert first + SEP + text == first + tail;
    assert "" + first == first;
  }

  lemma {:induction false} JoinThenSplit(segments: seq<string>)
    requires segments != [] && IsClean(segments)
    ensures Split(Join(segments)) == segments
  {
    if |segments| == 1 {
      ReadSegment("", segments[0], "");
      assert segments[0] + "" == segments[0] && "" + segments[0] == segments[0];
    } else {
      RestIsClean(segments);
      JoinThenSplit(segments[1..]);
      SplitsOff(segments[0], Join(segments[1..]));
    }
  }

  /** `current` may be followed by `s` without a separator at the seam or in it. */
  predicate Seamless(current: string, s: string) {
    !HoldsSep(current) && !(EndsInUnderscore(current) && s != "" && s[0] == '_')
  }

  lemma {:induction false} SplitIsClean(current: string, s: string)
    requires Seamless(current, s)
    ensures IsClean(SplitFrom(current, s))
    decreases |s|
  {
    if s == "" {
    } else if StartsWithSep(s) {
      SplitIsClean("", s[2..]);
      PrependClean(current, SplitFrom("", s[2..]));
    } else {
      ExtendSeamless(current, s);
      SplitIsClean(current + [s[0]], s[1..]);
    }
  }

  lemma PrependClean(first: string, rest: seq<string>)
    requires IsClean(rest) && !HoldsSep(first) && !EndsInUnderscore(first)
    ensures IsClean([first] + rest)
  {
    var all := [first] + rest;
    forall i | 0 <= i < |all|
      ensures !HoldsSep(all[i]) && (i < |all| - 1 ==> !EndsInUnderscore(all[i]))
    {
      if i > 0 {
        assert all[i] == rest[i - 1];
      }
    }
  }

  lemma ExtendSeamless(current: string, s: string)
    requires Seamless(current, s) && s != "" && !StartsWithSep(s)
    ensures Seamless(current + [s[0]], s[1..])
  {
    var now := current + [s[0]];
    forall i | 0 <= i < |now| - 1
      ensures !(now[i] == '_' && now[i + 1] == '_')
    {
      if i < |current| - 1 {
        assert !(current[i] == '_' && current[i + 1] == '_');
      }
    }
  }

  /** Splitting undoes joining exactly for clean segments, and joining always undoes splitting. */
  lemma SplitUndoesJoin(segments: seq<string>, s: string)
    requires segments != []
    ensures Split(Join(segments)) == segments <==> IsClean(segments)
    ensures Join(Split(s)) == s
  {
    SplitThenJoin("", s);
    assert "" + s == s;
    if IsClean(segments) {
      JoinThenSplit(segments);
    } else {
      SplitIsClean("", Join(segments));
    }
  }

  // ----- The config schema

  /** A config section; a field is a section, a free-form mapping, or a plain key. */
  datatype Model = Model(fields: map<string, Field>)

  datatype Field = Section(model: Model) | Mapping | Plain

  /** The path names a key of the schema: a field that is no section, or one key of a mapping. */
  predicate NamesKey(model: Model, path: seq<string>) {
    && path != [] && path[0] in model.fields
    && match model.fields[path[0]]
       case Section(inner) => NamesKey(inner, path[1..])
       case Mapping => |path| <= 2
       case Plain => |path| == 1
  }

  const ENV_PREFIX := "UKR__"

  function Underscored(path: string): string {
    if path == "" then ""
    else (if path[0] == '.' then SEP else [path[0]]) + Underscored(path[1..])
  }

  /** The variable that sets the key at a dotted path. */
  function EnvVar(path: string): string {
    ENV_PREFIX + Upper(Underscored(path))
  }

  /** A variable's name has the prefix and no lower-case letter of ASCII. */
  lemma VariableForm(path: string)
    ensures "UKR__" <= EnvVar(path)
    ensures forall i :: 0 <= i < |EnvVar(path)| ==> !('a' <= EnvVar(path)[i] <= 'z')
  {
    var rest := Upper(Underscored(path));
    forall i | 0 <= i < |EnvVar(path)|
      ensures !('a' <= EnvVar(path)[i] <= 'z')
    {
      assert EnvVar(path)[i] == if i < |ENV_PREFIX| then ENV_PREFIX[i] else rest[i - |ENV_PREFIX|];
    }
  }

  method EnvPath(root: Model, name: string) returns (path: Option<seq<string>>)
    requires |name| >= |ENV_PREFIX|
    ensures path == EnvPathOf(root, name)
  {
    var segments := Split(Lower(name[|ENV_PREFIX|..]));
    var model := root;
    for position := 0 to |segments|
      invariant NamesKey(root, segments) <==> NamesKey(model, segments[position..])
    {
      var segment := segments[position];
      var left := segments[position..];
      assert left[1..] == segments[position + 1..];
      if segment !in model.fields {
        return None;
      }
      var field := model.fields[segment];
      if field.Section? {
        model := field.model;
      } else {
        var rest := |segments| - position - 1;
        if rest == 0 || (rest == 1 && field.Mapping?) {
          return Some(segments);
        }
        return None;
      }
    }
    path := None;
  }

  /** The key a variable names, if it names one. */
  function EnvPathOf(root: Model, name: string): Option<seq<string>>
    requires |name| >= |ENV_PREFIX|
  {
    var segments := Split(Lower(name[|ENV_PREFIX|..]));
    if NamesKey(root, segments) then Some(segments) else None
  }

  function Dotted(segments: seq<string>): string {
    if segments == [] then "" else if |segments| == 1 then segments[0] else segments[0] + "." + Dotted(segments[1..])
  }

  predicate NoDots(s: string) {
    forall i :: 0 <= i < |s| ==> s[i] != '.'
  }

  lemma {:induction false} UnderscoredWhole(s: string, rest: string)
    requires NoDots(s)
    ensures Underscored(s + rest) == s + Underscored(rest)
  {
    if s == "" {
      assert s + rest == rest;
    } else {
      assert (s + rest)[1..] == s[1..] + rest;
      UnderscoredWhole(s[1..], rest);
      assert s == [s[0]] + s[1..];
    }
  }

  lemma UnderscoredPrepends(segment: string, rest: string)
    requires NoDots(segment)
    ensures Underscored(segment + "." + rest) == segment + SEP + Underscored(rest)
  {
    var tail := "." + rest;
    UnderscoredWhole(segment, tail);
    assert tail[1..] == rest;
    assert segment + "." + rest == segment + tail;
    assert segment + (SEP + Underscored(rest)) == segment + SEP + Underscored(rest);
  }

  lemma {:induction false} UnderscoredJoins(segments: seq<string>)
    requires forall i :: 0 <= i < |segments| ==> NoDots(segments[i])
    ensures Underscored(Dotted(segments)) == Join(segments)
  {
    if |segments| == 1 {
      UnderscoredWhole(segments[0], "");
      assert segments[0] + "" == segments[0];
    } else if |segments| > 1 {
      UnderscoredJoins(segments[1..]);
      UnderscoredPrepends(segments[0], Dotted(segments[1..]));
    }
  }

  /** Neither a capital letter nor a dot, and segments that split again where they were joined. */
  predicate IsAddressable(segments: seq<string>) {
    IsClean(segments) && forall i :: 0 <= i < |segments| ==> IsLower(segments[i]) && NoDots(segments[i])
  }

  // ----- Dotted paths

  /** The text between dots. */
  function AtDots(path: string): (parts: seq<string>)
    ensures parts != [] && forall i :: 0 <= i < |parts| ==> NoDots(parts[i])
  {
    if path == "" then [""] else
      var rest := AtDots(path[1..]);
      if path[0] == '.' then [""] + rest else [[path[0]] + rest[0]] + rest[1..]
  }

  lemma DottedFirst(first: string, rest: seq<string>)
    ensures Dotted([first] + rest) == if rest == [] then first else first + "." + Dotted(rest)
  {
    assert ([first] + rest)[1..] == rest;
  }

  lemma DottedGrows(c: char, first: string, rest: seq<string>)
    ensures Dotted([[c] + first] + rest) == [c] + Dotted([first] + rest)
  {
    DottedFirst([c] + first, rest);
    DottedFirst(first, rest);
    if rest != [] {
      assert [c] + first + "." + Dotted(rest) == [c] + (first + "." + Dotted(rest));
    }
  }

  lemma {:induction false} DottedAtDots(path: string)
    ensures Dotted(AtDots(path)) == path
  {
    if path != "" {
      var rest := AtDots(path[1..]);
      DottedAtDots(path[1..]);
      DottedFirst("", rest);
      DottedGrows(path[0], rest[0], rest[1..]);
      assert rest == [rest[0]] + rest[1..];
      assert path == [path[0]] + path[1..];
    }
  }

  /** A path of dotless segments ending in any text: the text adds its own parts. */
  lemma {:induction false} AtDotsPrepends(segment: string, path: string)
    requires NoDots(segment)
    ensures AtDots(segment + "." + path) == [segment] + AtDots(path)
  {
    var all := segment + "." + path;
    if segment == "" {
      assert all[1..] == path;
    } else {
      assert all[1..] == segment[1..] + "." + path && all[0] == segment[0];
      AtDotsPrepends(segment[1..], path);
      assert segment == [segment[0]] + segment[1..];
      assert ([segment[1..]] + AtDots(path))[1..] == AtDots(path);
    }
  }

  lemma {:induction false} SplitHasNoDots(current: string, s: string)
    requires NoDots(current) && NoDots(s)
    ensures forall i :: 0 <= i < |SplitFrom(current, s)| ==> NoDots(SplitFrom(current, s)[i])
    decreases |s|
  {
    if s == "" {
    } else if StartsWithSep(s) {
      SplitHasNoDots("", s[2..]);
    } else {
      SplitHasNoDots(current + [s[0]], s[1..]);
    }
  }

  lemma {:induction false} UnderscoredHasNoDots(path: string)
    ensures NoDots(Underscored(path))
  {
    if path != "" {
      UnderscoredHasNoDots(path[1..]);
    }
  }

  lemma {:induction false} JoinIsLower(segments: seq<string>)
    ensures IsLower(Join(segments)) <==> forall i :: 0 <= i < |segments| ==> IsLower(segments[i])
  {
    if |segments| > 1 {
      JoinIsLower(segments[1..]);
      var s, t := segments[0], Join(segments[1..]);
      JoinedLower(s, t);
      if IsLower(t) && IsLower(s) {
        forall i | 0 <= i < |segments|
          ensures IsLower(segments[i])
        {
          if i > 0 { assert segments[i] == segments[1..][i - 1]; }
        }
      }
    }
  }

  lemma JoinedLower(s: string, t: string)
    ensures IsLower(s + SEP + t) <==> IsLower(s) && IsLower(t)
  {
    var all := s + SEP + t;
    if IsLower(all) {
      assert forall i :: 0 <= i < |s| ==> s[i] == all[i];
      assert forall i :: 0 <= i < |t| ==> t[i] == all[|s| + 2 + i];
    }
  }

  /** What the variable of any path names: the path's parts, as they read back. */
  lemma VariableReadsBack(path: string)
    ensures var name := EnvVar(path);
            && |name| >= |ENV_PREFIX|
            && Split(Lower(name[|ENV_PREFIX|..])) == Split(Lower(Join(AtDots(path))))
  {
    DottedAtDots(path);
    UnderscoredJoins(AtDots(path));
    assert EnvVar(path)[|ENV_PREFIX|..] == Upper(Join(AtDots(path)));
    LowerOfUpper(Join(AtDots(path)));
  }

  lemma {:induction false} AtDotsOfDotted(segments: seq<string>)
    requires segments != [] && forall i :: 0 <= i < |segments| ==> NoDots(segments[i])
    ensures AtDots(Dotted(segments)) == segments
  {
    if |segments| == 1 {
      DotlessIsOnePart(segments[0]);
      assert segments == [segments[0]];
    } else {
      AtDotsOfDotted(segments[1..]);
      AtDotsPrepends(segments[0], Dotted(segments[1..]));
    }
  }

  lemma {:induction false} DotlessIsOnePart(segment: string)
    requires NoDots(segment)
    ensures AtDots(segment) == [segment]
  {
    if segment != "" {
      DotlessIsOnePart(segment[1..]);
      assert segment == [segment[0]] + segment[1..];
    }
  }

  /** A key's variable names the key's own path exactly when the path is addressable. */
  lemma ReadsBackIff(segments: seq<string>)
    requires segments != []
    ensures Split(Lower(Join(AtDots(Dotted(segments))))) == segments <==> IsAddressable(segments)
  {
    var parts := AtDots(Dotted(segments));
    if forall i :: 0 <= i < |segments| ==> NoDots(segments[i]) {
      AtDotsOfDotted(segments);
      JoinIsLower(segments);
      LowerOfUpper(Join(segments));
      ReadsLowerIff(Join(segments));
      SplitUndoesJoin(segments, Lower(Join(segments)));
    } else {
      DottedAtDots(Dotted(segments));
      UnderscoredJoins(parts);
      UnderscoredHasNoDots(Dotted(segments));
      LowerHasNoDots(Join(parts));
      SplitHasNoDots("", Lower(Join(parts)));
    }
  }

  lemma LowerHasNoDots(s: string)
    requires NoDots(s)
    ensures NoDots(Lower(s))
  {
    assert forall i :: 0 <= i < |s| ==> Lower(s)[i] == LowerChar(s[i]);
  }

  /**
   * Every key can be set by its variable, and the variable names that very key, exactly when its
   * path holds no capital letter, no double underscore, no underscore before a separator, and
   * no dot within a segment.
   */
  lemma KeyIsSetByItsVariable(root: Model, segments: seq<string>)
    requires NamesKey(root, segments)
    ensures |EnvVar(Dotted(segments))| >= |ENV_PREFIX|
    ensures EnvPathOf(root, EnvVar(Dotted(segments))) == Some(segments) <==> IsAddressable(segments)
  {
    VariableReadsBack(Dotted(segments));
    ReadsBackIff(segments);
  }

  /** Two keys that can be set share no variable. */
  lemma KeysShareNoVariable(root: Model, k: seq<string>, l: seq<string>)
    requires NamesKey(root, k) && NamesKey(root, l) && IsAddressable(k) && IsAddressable(l)
    requires EnvVar(Dotted(k)) == EnvVar(Dotted(l))
    ensures k == l
  {
    KeyIsSetByItsVariable(root, k);
    KeyIsSetByItsVariable(root, l);
  }

  function LowerAll(segments: seq<string>): (lowered: seq<string>)
    ensures |lowered| == |segments| && forall i :: 0 <= i < |segments| ==> lowered[i] == Lower(segments[i])
  {
    if segments == [] then [] else [Lower(segments[0])] + LowerAll(segments[1..])
  }

  lemma LowerJoins(s: string, t: string)
    ensures Lower(s + SEP + t) == Lower(s) + SEP + Lower(t)
  {
  }

  lemma {:induction false} LowerOfJoin(segments: seq<string>)
    ensures Lower(Join(segments)) == Join(LowerAll(segments))
  {
    if |segments| == 1 {
      assert LowerAll(segments)[0] == Lower(segments[0]);
    } else if |segments| > 1 {
      LowerOfJoin(segments[1..]);
      LowerJoins(segments[0], Join(segments[1..]));
      assert LowerAll(segments)[1..] == LowerAll(segments[1..]);
    }
  }

  lemma LowerKeepsUnderscores(s: string)
    ensures HoldsSep(Lower(s)) <==> HoldsSep(s)
    ensures EndsInUnderscore(Lower(s)) <==> EndsInUnderscore(s)
  {
    if HoldsSep(Lower(s)) {
      var i :| 0 <= i < |s| - 1 && Lower(s)[i] == '_' && Lower(s)[i + 1] == '_';
      assert s[i] == '_' && s[i + 1] == '_';
    }
    if HoldsSep(s) {
      var i :| 0 <= i < |s| - 1 && s[i] == '_' && s[i + 1] == '_';
      assert Lower(s)[i] == '_' && Lower(s)[i + 1] == '_';
    }
  }

  lemma LowerAllIsClean(segments: seq<string>)
    requires IsClean(segments)
    ensures IsClean(LowerAll(segments))
  {
    var lowered := LowerAll(segments);
    forall i | 0 <= i < |lowered|
      ensures !HoldsSep(lowered[i]) && (i < |lowered| - 1 ==> !EndsInUnderscore(lowered[i]))
    {
      LowerKeepsUnderscores(segments[i]);
    }
  }

  /** A key with a capital letter cannot be set: its variable names the lower-case key, if there is one. */
  lemma CapitalKeyNamesAnother(root: Model, path: string)
    requires IsClean(AtDots(path))
    ensures |EnvVar(path)| >= |ENV_PREFIX|
    ensures EnvPathOf(root, EnvVar(path)) ==
      if NamesKey(root, LowerAll(AtDots(path))) then Some(LowerAll(AtDots(path))) else None
  {
    var parts := AtDots(path);
    VariableReadsBack(path);
    LowerOfJoin(parts);
    LowerAllIsClean(parts);
    SplitUndoesJoin(LowerAll(parts), Join(parts));
  }

  // ----- Mapping keys with a dot

  /** The path ends in one key of a mapping. */
  predicate NamesMappingKey(model: Model, path: seq<string>) {
    && path != [] && path[0] in model.fields
    && match model.fields[path[0]]
       case Section(inner) => NamesMappingKey(inner, path[1..])
       case Mapping => |path| == 2
       case Plain => false
  }

  lemma {:induction false} NothingBelowAMappingKey(model: Model, path: seq<string>, longer: seq<string>)
    requires NamesMappingKey(model, path) && |longer| > |path| && longer[..|path| - 1] == path[..|path| - 1]
    ensures !NamesKey(model, longer)
  {
    assert |path| > 1 ==> longer[0] == longer[..|path| - 1][0];
    match model.fields[path[0]]
    case Section(inner) =>
      assert |path[1..]| > 0;
      assert longer[1..][..|path| - 2] == longer[..|path| - 1][1..] == path[..|path| - 1][1..] == path[1..][..|path| - 2];
      NothingBelowAMappingKey(inner, path[1..], longer[1..]);
    case _ =>
  }

  lemma {:induction false} PartsOfDottedKey(segments: seq<string>, key: string)
    requires forall i :: 0 <= i < |segments| ==> NoDots(segments[i])
    ensures AtDots(Dotted(segments + [key])) == segments + AtDots(key)
  {
    if segments != [] {
      var all := segments + [key];
      assert all[1..] == segments[1..] + [key];
      PartsOfDottedKey(segments[1..], key);
      AtDotsPrepends(segments[0], Dotted(all[1..]));
      assert [segments[0]] + (segments[1..] + AtDots(key)) == segments + AtDots(key);
    } else {
      assert segments + [key] == [key];
      assert segments + AtDots(key) == AtDots(key);
    }
  }

  lemma {:induction false} DotMakesParts(key: string)
    requires !NoDots(key)
    ensures |AtDots(key)| > 1
  {
    if key[0] != '.' {
      assert !NoDots(key[1..]) by {
        var i :| 0 <= i < |key| && key[i] == '.';
        assert key[1..][i - 1] == '.';
      }
      DotMakesParts(key[1..]);
    }
  }

  /** The variable of a mapping key with a dot, such as an index setting's or a model's price, names nothing. */
  lemma DottedKeyNamesNothing(root: Model, segments: seq<string>, key: string)
    requires NamesMappingKey(root, segments + [key]) && !NoDots(key)
    requires forall i :: 0 <= i < |segments| ==> NoDots(segments[i]) && IsLower(segments[i])
    requires IsClean(segments + AtDots(key))
    ensures |EnvVar(Dotted(segments + [key]))| >= |ENV_PREFIX|
    ensures EnvPathOf(root, EnvVar(Dotted(segments + [key]))) == None
  {
    var path, parts := segments + [key], segments + AtDots(key);
    PartsOfDottedKey(segments, key);
    CapitalKeyNamesAnother(root, Dotted(path));
    DotMakesParts(key);
    forall i | 0 <= i < |segments|
      ensures LowerAll(parts)[i] == segments[i]
    {
      LowerOfUpper(segments[i]);
      ReadsLowerIff(segments[i]);
    }
    assert LowerAll(parts)[..|path| - 1] == segments == path[..|path| - 1];
    NothingBelowAMappingKey(root, path, LowerAll(parts));
  }
}
