/** Which of a user's environment variables apply to a repository (components/nxpod-protocol/src/protocol.ts). */
module EnvVars {
  import opened Options
  import opened Strings

  datatype EnvVar = EnvVar(id: string, name: string, repositoryPattern: string, value: string)

  function OwnerPattern(v: EnvVar): string {
    Split(v.repositoryPattern, '/')[0]
  }

  /** Missing when the pattern has no slash. */
  function RepoPattern(v: EnvVar): Option<string> {
    var parts := Split(v.repositoryPattern, '/');
    if |parts| > 1 then Some(parts[1]) else None
  }

  /** Whether a pattern admits a name; the empty name is admitted by every pattern. */
  predicate Admits(lower: string -> string, pattern: Option<string>, name: string) {
    pattern == Some("*") || pattern == Some("#") || name == "" || pattern == Some(lower(name))
  }

  predicate Matches(lower: string -> string, v: EnvVar, owner: string, repo: string) {
    Admits(lower, Some(OwnerPattern(v)), owner) && Admits(lower, RepoPattern(v), repo)
  }

  /** The lower the score, the higher the precedence. */
  function Score(v: EnvVar): nat {
    if OwnerPattern(v) == "#" || RepoPattern(v) == Some("#") then 4
    else (if RepoPattern(v) == Some("*") then 1 else 0) + (if OwnerPattern(v) == "*" then 2 else 0)
  }

  /** What the two halves of a pattern mean: the order of precedence, and which repositories it admits. */
  lemma PatternMeaning(lower: string -> string, v: EnvVar, a: string, b: string, owner: string, repo: string)
    requires v.repositoryPattern == a + "/" + b && '/' !in a && '/' !in b
    ensures Score(v) == if a == "#" || b == "#" then 4
                        else if a == "*" then (if b == "*" then 3 else 2)
                        else if b == "*" then 1 else 0
    ensures Matches(lower, v, owner, repo) <==>
      (a in {"*", "#", lower(owner)} || owner == "") && (b in {"*", "#", lower(repo)} || repo == "")
  {
    SplitConcat(a, '/', b);
    SplitWithout(a, '/');
    SplitWithout(b, '/');
  }

  /** A pattern without a slash names an owner only: it admits no named repository, and scores by its owner. */
  lemma OwnerOnly(lower: string -> string, v: EnvVar, owner: string, repo: string)
    requires '/' !in v.repositoryPattern
    ensures Score(v) == if v.repositoryPattern == "#" then 4 else if v.repositoryPattern == "*" then 2 else 0
    ensures Matches(lower, v, owner, repo) <==>
      (v.repositoryPattern in {"*", "#", lower(owner)} || owner == "") && repo == ""
  {
    SplitWithout(v.repositoryPattern, '/');
  }

  /** What follows a second slash does not matter. */
  lemma ExtraPartsIgnored(lower: string -> string, v: EnvVar, a: string, b: string, rest: string,
                          owner: string, repo: string)
    requires v.repositoryPattern == a + "/" + b + "/" + rest && '/' !in a && '/' !in b
    ensures Score(v) == Score(v.(repositoryPattern := a + "/" + b))
    ensures Matches(lower, v, owner, repo) <==> Matches(lower, v.(repositoryPattern := a + "/" + b), owner, repo)
  {
    assert a + "/" + b + "/" + rest == a + ['/'] + (b + ['/'] + rest);
    SplitConcat(a, '/', b + ['/'] + rest);
    SplitConcat(b, '/', rest);
    SplitConcat(a, '/', b);
    SplitWithout(a, '/');
    SplitWithout(b, '/');
  }

  // ---- Specification ----

  /** The members of `vars` that pass, in order. */
  function Filtering(pass: EnvVar -> bool, vars: seq<EnvVar>): seq<EnvVar> {
    if vars == [] then []
    else
      var last := vars[|vars| - 1];
      Filtering(pass, vars[..|vars| - 1]) + if pass(last) then [last] else []
  }

  function Applies(lower: string -> string, owner: string, repo: string): EnvVar -> bool {
    (v: EnvVar) => Matches(lower, v, owner, repo)
  }

  function Matching(lower: string -> string, vars: seq<EnvVar>, owner: string, repo: string): seq<EnvVar> {
    Filtering(Applies(lower, owner, repo), vars)
  }

  function Named(name: string): EnvVar -> bool {
    (v: EnvVar) => v.name == name
  }

  function Candidates(vars: seq<EnvVar>, name: string): seq<EnvVar> {
    Filtering(Named(name), vars)
  }

  /** The distinct names, in the order of their first occurrence. */
  function Names(vars: seq<EnvVar>): seq<string> {
    if vars == [] then []
    else
      var names := Names(vars[..|vars| - 1]);
      names + if vars[|vars| - 1].name in names then [] else [vars[|vars| - 1].name]
  }

  lemma {:induction false} FilteringMembers(pass: EnvVar -> bool, vars: seq<EnvVar>, v: EnvVar)
    ensures v in Filtering(pass, vars) <==> v in vars && pass(v)
  {
    if vars != [] {
      var n := |vars| - 1;
      FilteringMembers(pass, vars[..n], v);
      assert vars == vars[..n] + [vars[n]];
    }
  }

  /** A name is listed exactly when some variable has it. */
  lemma {:induction false} NamesMembers(vars: seq<EnvVar>, name: string)
    ensures name in Names(vars) <==> Candidates(vars, name) != []
  {
    if vars != [] {
      NamesMembers(vars[..|vars| - 1], name);
    }
  }

  lemma {:induction false} NamesDistinct(vars: seq<EnvVar>, i: nat, j: nat)
    requires i < j < |Names(vars)|
    ensures Names(vars)[i] != Names(vars)[j]
  {
    var names := Names(vars[..|vars| - 1]);
    if j < |names| {
      NamesDistinct(vars[..|vars| - 1], i, j);
    } else {
      assert names[i] in names;
    }
  }

  /** The earliest position of the least number. */
  function ArgMin(scores: seq<int>): (k: nat)
    requires scores != []
    ensures k < |scores|
    ensures forall i | 0 <= i < |scores| :: scores[k] <= scores[i]
    ensures forall i | 0 <= i < k :: scores[k] < scores[i]
  {
    var n := |scores| - 1;
    if n == 0 then 0
    else
      var k := ArgMin(scores[..n]);
      if scores[n] < scores[k] then n else k
  }

  function Scores(vars: seq<EnvVar>): (r: seq<int>)
    ensures |r| == |vars|
  {
    seq(|vars|, i requires 0 <= i < |vars| => Score(vars[i]))
  }

  /** The earliest of the candidates with the least score. */
  function Best(candidates: seq<EnvVar>): (r: EnvVar)
    requires candidates != []
    ensures r in candidates
  {
    candidates[ArgMin(Scores(candidates))]
  }

  function Filtered(lower: string -> string, vars: seq<EnvVar>, owner: string, repo: string): seq<EnvVar> {
    Selection(Matching(lower, vars, owner, repo))
  }

  function Chosen(vars: seq<EnvVar>, name: string): EnvVar
    requires name in Names(vars)
  {
    NamesMembers(vars, name);
    Best(Candidates(vars, name))
  }

  function Selection(vars: seq<EnvVar>): (r: seq<EnvVar>)
    ensures |r| == |Names(vars)|
  {
    seq(|Names(vars)|, i requires 0 <= i < |Names(vars)| => Chosen(vars, Names(vars)[i]))
  }

  // ---- The method ----

  method Filter(lower: string -> string, vars: seq<EnvVar>, owner: string, repo: string) returns (result: seq<EnvVar>)
    ensures result == Filtered(lower, vars, owner, repo)
  {
    var matching := FilterMatching(lower, vars, owner, repo);
    var keys, resmap := Group(matching);
    result := SelectBest(matching, keys, resmap);
  }

  method SelectBest(ghost matching: seq<EnvVar>, keys: seq<string>, resmap: map<string, seq<EnvVar>>)
    returns (result: seq<EnvVar>)
    requires keys == Names(matching)
    requires forall n | n in keys :: n in resmap && resmap[n] == Candidates(matching, n)
    ensures result == Selection(matching)
  {
    result := [];
    for i := 0 to |keys|
      invariant |result| == i && forall j | 0 <= j < i :: result[j] == Chosen(matching, keys[j])
    {
      assert keys[i] in keys;
      NamesMembers(matching, keys[i]);
      var chosen := Choose(resmap[keys[i]]);
      assert chosen == Chosen(matching, keys[i]);
      result := result + [chosen];
    }
  }

  method FilterMatching(lower: string -> string, vars: seq<EnvVar>, owner: string, repo: string)
    returns (result: seq<EnvVar>)
    ensures result == Matching(lower, vars, owner, repo)
  {
    result := [];
    for i := 0 to |vars|
      invariant result == Matching(lower, vars[..i], owner, repo)
    {
      assert vars[..i + 1][..i] == vars[..i];
      if Matches(lower, vars[i], owner, repo) {
        result := result + [vars[i]];
      }
    }
    assert vars[..|vars|] == vars;
  }

  /** The candidates by name; `keys` is the insertion order of the map. */
  method Group(vars: seq<EnvVar>) returns (keys: seq<string>, resmap: map<string, seq<EnvVar>>)
    ensures keys == Names(vars)
    ensures forall n :: n in resmap <==> n in keys
    ensures forall n | n in keys :: resmap[n] == Candidates(vars, n)
  {
    keys, resmap := [], map[];
    for i := 0 to |vars|
      invariant keys == Names(vars[..i])
      invariant forall n :: n in resmap <==> n in keys
      invariant forall n | n in keys :: resmap[n] == Candidates(vars[..i], n)
    {
      assert vars[..i + 1][..i] == vars[..i];
      var e := vars[i];
      var l := if e.name in resmap then resmap[e.name] else [];
      NamesMembers(vars[..i], e.name);
      if e.name !in resmap {
        keys := keys + [e.name];
      }
      resmap := resmap[e.name := l + [e]];
    }
    assert vars[..|vars|] == vars;
  }

  /** A single candidate is taken without a look at its score. */
  method Choose(candidates: seq<EnvVar>) returns (best: EnvVar)
    requires candidates != []
    ensures best == Best(candidates)
  {
    if |candidates| == 1 {
      return candidates[0];
    }
    best := Scan(candidates, (v: EnvVar) => Score(v), Scores(candidates));
  }

  /** Keeps the first candidate, and any later one with a smaller score. */
  method Scan(candidates: seq<EnvVar>, score: EnvVar -> int, ghost scores: seq<int>) returns (best: EnvVar)
    requires candidates != [] && |scores| == |candidates|
    requires forall i | 0 <= i < |candidates| :: scores[i] == score(candidates[i])
    ensures best == candidates[ArgMin(scores)]
  {
    var minscore := 10;
    var bestCandidate := None;
    for i := 0 to |candidates|
      invariant bestCandidate.None? <==> i == 0
      invariant i > 0 ==>
        bestCandidate.value == candidates[ArgMin(scores[..i])] && minscore == scores[ArgMin(scores[..i])]
    {
      assert scores[..i + 1][..i] == scores[..i];
      if bestCandidate.None? || score(candidates[i]) < minscore {
        minscore := score(candidates[i]);
        bestCandidate := Some(candidates[i]);
      }
    }
    assert scores[..|candidates|] == scores;
    best := bestCandidate.value;
  }

  // ---- What it returns ----

  lemma ChosenBelongs(vars: seq<EnvVar>, name: string)
    requires name in Names(vars)
    ensures Chosen(vars, name) in vars && Chosen(vars, name).name == name
  {
    NamesMembers(vars, name);
    FilteringMembers(Named(name), vars, Chosen(vars, name));
  }

  /** Exactly one variable for each name among the matching ones, in the order of the names' first matches. */
  lemma OnePerName(lower: string -> string, vars: seq<EnvVar>, owner: string, repo: string)
    ensures var matching, r := Matching(lower, vars, owner, repo), Filtered(lower, vars, owner, repo);
      && (forall v :: v in matching <==> v in vars && Matches(lower, v, owner, repo))
      && |r| == |Names(matching)|
      && (forall i | 0 <= i < |r| :: r[i].name == Names(matching)[i] && r[i] in matching)
      && (forall i, j | 0 <= i < j < |r| :: r[i].name != r[j].name)
      && (forall v | v in matching :: exists i :: 0 <= i < |r| && r[i].name == v.name)
  {
    var matching, r := Matching(lower, vars, owner, repo), Filtered(lower, vars, owner, repo);
    forall v ensures v in matching <==> v in vars && Matches(lower, v, owner, repo) {
      FilteringMembers(Applies(lower, owner, repo), vars, v);
    }
    forall i | 0 <= i < |r| ensures r[i].name == Names(matching)[i] && r[i] in matching {
      ChosenBelongs(matching, Names(matching)[i]);
    }
    forall i, j | 0 <= i < j < |r| ensures r[i].name != r[j].name {
      NamesDistinct(matching, i, j);
    }
    forall v | v in matching ensures exists i :: 0 <= i < |r| && r[i].name == v.name {
      FilteringMembers(Named(v.name), matching, v);
      NamesMembers(matching, v.name);
      var i :| 0 <= i < |Names(matching)| && Names(matching)[i] == v.name;
      assert r[i].name == v.name;
    }
  }

  /** The position of the first variable with a listed name. */
  lemma {:induction false} FirstOccurrence(vars: seq<EnvVar>, i: nat) returns (k: nat)
    requires i < |Names(vars)|
    ensures k < |vars| && vars[k].name == Names(vars)[i] && Names(vars[..k]) == Names(vars)[..i]
  {
    var n := |vars| - 1;
    var names := Names(vars[..n]);
    if i < |names| {
      k := FirstOccurrence(vars[..n], i);
      assert vars[..n][..k] == vars[..k] && Names(vars)[..i] == names[..i];
    } else {
      k := n;
      assert Names(vars)[..i] == names;
    }
  }

  /** The chosen variable scores least among those of its name, and less than those of them before it. */
  lemma ChosenIsEarliest(vars: seq<EnvVar>, name: string) returns (k: nat)
    requires name in Names(vars)
    ensures k < |vars| && vars[k] == Chosen(vars, name)
    ensures forall j | 0 <= j < |vars| && vars[j].name == name :: Score(vars[k]) <= Score(vars[j])
    ensures forall j | 0 <= j < k && vars[j].name == name :: Score(vars[k]) < Score(vars[j])
  {
    NamesMembers(vars, name);
    var candidates := Candidates(vars, name);
    var scores := Scores(candidates);
    var c := ArgMin(scores);
    k := Origin(vars, name, c);
    forall j | 0 <= j < |vars| && vars[j].name == name ensures Score(vars[k]) <= Score(vars[j]) {
      FilteringMembers(Named(name), vars, vars[j]);
      var d :| 0 <= d < |candidates| && candidates[d] == vars[j];
      assert scores[c] <= scores[d];
    }
    forall j | 0 <= j < k && vars[j].name == name ensures Score(vars[k]) < Score(vars[j]) {
      assert vars[j] in vars[..k];
      FilteringMembers(Named(name), vars[..k], vars[j]);
      var d :| 0 <= d < c && candidates[d] == vars[j];
      assert scores[c] < scores[d];
    }
  }

  /** Each result scores least among the matching variables of its name, and less than those of them before it. */
  lemma EarliestOfLeastScore(lower: string -> string, vars: seq<EnvVar>, owner: string, repo: string, i: nat)
    returns (k: nat)
    requires i < |Filtered(lower, vars, owner, repo)|
    ensures var matching, r := Matching(lower, vars, owner, repo), Filtered(lower, vars, owner, repo)[i];
      && k < |matching| && matching[k] == r
      && (forall j | 0 <= j < |matching| && matching[j].name == r.name :: Score(r) <= Score(matching[j]))
      && (forall j | 0 <= j < k && matching[j].name == r.name :: Score(r) < Score(matching[j]))
  {
    var matching := Matching(lower, vars, owner, repo);
    k := ChosenIsEarliest(matching, Names(matching)[i]);
    ChosenBelongs(matching, Names(matching)[i]);
  }

  /** Where a candidate stands among all variables; the candidates before it are those that stand before. */
  lemma {:induction false} Origin(vars: seq<EnvVar>, name: string, c: nat) returns (k: nat)
    requires c < |Candidates(vars, name)|
    ensures k < |vars| && vars[k] == Candidates(vars, name)[c]
    ensures Candidates(vars[..k], name) == Candidates(vars, name)[..c]
  {
    var n := |vars| - 1;
    var before := Candidates(vars[..n], name);
    if c < |before| {
      k := Origin(vars[..n], name, c);
      assert vars[..n][..k] == vars[..k];
      assert Candidates(vars, name)[..c] == before[..c];
    } else {
      k := n;
      assert Candidates(vars, name)[..c] == before;
    }
  }

  lemma {:induction false} FilteringAll(pass: EnvVar -> bool, vars: seq<EnvVar>)
    requires forall v | v in vars :: pass(v)
    ensures Filtering(pass, vars) == vars
  {
    if vars != [] {
      var n := |vars| - 1;
      assert vars[n] in vars && vars == vars[..n] + [vars[n]];
      FilteringAll(pass, vars[..n]);
    }
  }

  lemma {:induction false} DistinctNames(vars: seq<EnvVar>)
    requires forall i, j | 0 <= i < j < |vars| :: vars[i].name != vars[j].name
    ensures |Names(vars)| == |vars| && forall i | 0 <= i < |vars| :: Names(vars)[i] == vars[i].name
  {
    if vars != [] {
      DistinctNames(vars[..|vars| - 1]);
    }
  }

  lemma SoleCandidate(vars: seq<EnvVar>, k: nat)
    requires k < |vars| && forall i, j | 0 <= i < j < |vars| :: vars[i].name != vars[j].name
    requires vars[k].name in Names(vars)
    ensures Chosen(vars, vars[k].name) == vars[k]
  {
    ChosenBelongs(vars, vars[k].name);
  }

  /** Filtering the result again returns it unchanged. */
  lemma Idempotent(lower: string -> string, vars: seq<EnvVar>, owner: string, repo: string)
    ensures var r := Filtered(lower, vars, owner, repo);
      Filtered(lower, r, owner, repo) == r
  {
    var r := Filtered(lower, vars, owner, repo);
    OnePerName(lower, vars, owner, repo);
    FilteringAll(Applies(lower, owner, repo), r);
    DistinctNames(r);
    forall i | 0 <= i < |r| ensures Selection(r)[i] == r[i] {
      SoleCandidate(r, i);
    }
  }
}
