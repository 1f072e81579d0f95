/**
 * Kernel module loading: each required module after its dependencies, as modules.dep lists
 * them. Modules go by their stems. Whether a load succeeds is up to the environment.
 */
module ModuleLoader {
  import opened Common

  type Name = string

  /** A line of modules.dep: a module and the modules it depends on, directly or not. */
  datatype DepLine = DepLine(name: Name, deps: seq<Name>)

  type DepFile = seq<DepLine>

  function LineOf(file: DepFile, name: Name): (line: Option<DepLine>)
    ensures line.Some? ==> line.value in file && line.value.name == name
    ensures line.None? <==> forall l | l in file :: l.name != name
  {
    if file == [] then None
    else if file[0].name == name then Some(file[0])
    else
      assert file == [file[0]] + file[1..];
      LineOf(file[1..], name)
  }

  /** The line found is the first one for the module. */
  lemma {:induction false} LineIsFirst(file: DepFile, name: Name, k: nat)
    requires k < |file| && file[k].name == name && forall j | 0 <= j < k :: file[j].name != name
    ensures LineOf(file, name) == Some(file[k])
  {
    if k > 0 {
      LineIsFirst(file[1..], name, k - 1);
    }
  }

  function Deps(file: DepFile, name: Name): seq<Name> {
    match LineOf(file, name)
    case Some(line) => line.deps
    case None => []
  }

  datatype Attempt = Attempt(name: Name, ok: bool)

  /** `loaded` is the process-wide set; `attempts` is the history of loads. */
  datatype State = State(loaded: set<Name>, attempts: seq<Attempt>)

  const FRESH := State({}, [])

  /** The environment: how the n-th load goes, and which unlisted modules have a file. */
  datatype Env = Env(works: nat -> bool, hasFile: Name -> bool)

  function Tried(env: Env, s: State, name: Name): State {
    if name in s.loaded then s
    else
      var ok := env.works(|s.attempts|);
      State(if ok then s.loaded + {name} else s.loaded, s.attempts + [Attempt(name, ok)])
  }

  /** Dependencies from right to left. */
  function TriedFromRight(env: Env, s: State, deps: seq<Name>): State
    decreases |deps|
  {
    if deps == [] then s
    else TriedFromRight(env, Tried(env, s, deps[|deps| - 1]), deps[..|deps| - 1])
  }

  /** A module without a modules.dep line: its load is not recorded as loaded. */
  function TriedSingle(env: Env, s: State, name: Name): State {
    if env.hasFile(name) then s.(attempts := s.attempts + [Attempt(name, env.works(|s.attempts|))]) else s
  }

  /** `file` is missing when there is no readable modules.dep. */
  function LoadedWithDeps(env: Env, file: Option<DepFile>, s: State, name: Name): State {
    if name in s.loaded then s
    else if file.None? || LineOf(file.value, name).None? then TriedSingle(env, s, name)
    else Tried(env, TriedFromRight(env, s, LineOf(file.value, name).value.deps), name)
  }

  function LoadedAll(env: Env, file: Option<DepFile>, s: State, names: seq<Name>): State
    decreases |names|
  {
    if names == [] then s
    else LoadedAll(env, file, LoadedWithDeps(env, file, s, names[0]), names[1..])
  }

  // ----- Load order -----

  predicate AttemptedIn(attempts: seq<Attempt>, name: Name) {
    exists a | a in attempts :: a.name == name
  }

  /** Every attempt comes after attempts at all that module's dependencies. */
  ghost predicate Ordered(file: DepFile, attempts: seq<Attempt>) {
    forall k | 0 <= k < |attempts| ::
      forall d | d in Deps(file, attempts[k].name) :: AttemptedIn(attempts[..k], d)
  }

  /** The line lists, to the right of each dependency, all that dependency depends on. */
  ghost predicate RightListed(file: DepFile, deps: seq<Name>) {
    forall i | 0 <= i < |deps| :: forall d | d in Deps(file, deps[i]) :: d in deps[i + 1..]
  }

  /** So do the lines of all modules asked for; no other line of the file matters. */
  ghost predicate AllRightListed(file: DepFile, names: seq<Name>) {
    forall n | n in names :: RightListed(file, Deps(file, n))
  }

  /** Order so far, and nothing counts as loaded that was not attempted. */
  ghost predicate OrderInv(file: DepFile, s: State) {
    && Ordered(file, s.attempts)
    && forall n | n in s.loaded :: AttemptedIn(s.attempts, n)
  }

  lemma AttemptKeepsOrder(file: DepFile, attempts: seq<Attempt>, a: Attempt)
    requires Ordered(file, attempts)
    requires forall d | d in Deps(file, a.name) :: AttemptedIn(attempts, d)
    ensures Ordered(file, attempts + [a])
    ensures forall n | AttemptedIn(attempts, n) :: AttemptedIn(attempts + [a], n)
    ensures AttemptedIn(attempts + [a], a.name)
  {
    var all := attempts + [a];
    assert a in all;
    forall n | AttemptedIn(attempts, n)
      ensures AttemptedIn(all, n)
    {
      var b :| b in attempts && b.name == n;
      assert b in all;
    }
    forall k, d | 0 <= k < |all| && d in Deps(file, all[k].name)
      ensures AttemptedIn(all[..k], d)
    {
      if k < |attempts| {
        assert all[..k] == attempts[..k];
      } else {
        assert all[..k] == attempts;
      }
    }
  }

  lemma TriedKeepsOrder(env: Env, file: DepFile, s: State, name: Name)
    requires OrderInv(file, s)
    requires forall d | d in Deps(file, name) :: AttemptedIn(s.attempts, d)
    ensures OrderInv(file, Tried(env, s, name))
    ensures AttemptedIn(Tried(env, s, name).attempts, name)
    ensures forall n | AttemptedIn(s.attempts, n) :: AttemptedIn(Tried(env, s, name).attempts, n)
  {
    if name !in s.loaded {
      AttemptKeepsOrder(file, s.attempts, Attempt(name, env.works(|s.attempts|)));
    }
  }

  /** Trying a right-listed line from the right: what lies right of the cut has been attempted. */
  lemma {:induction false} FromRightKeepsOrder(env: Env, file: DepFile, s: State, deps: seq<Name>, cut: nat)
    requires OrderInv(file, s) && RightListed(file, deps) && cut <= |deps|
    requires forall d | d in deps[cut..] :: AttemptedIn(s.attempts, d)
    ensures OrderInv(file, TriedFromRight(env, s, deps[..cut]))
    ensures forall d | d in deps :: AttemptedIn(TriedFromRight(env, s, deps[..cut]).attempts, d)
    decreases cut
  {
    if cut > 0 {
      var d := deps[cut - 1];
      var s' := Tried(env, s, d);
      forall x | x in Deps(file, d)
        ensures AttemptedIn(s.attempts, x)
      {
        assert x in deps[(cut - 1) + 1..];
      }
      TriedKeepsOrder(env, file, s, d);
      assert deps[cut - 1..] == [d] + deps[cut..];
      FromRightKeepsOrder(env, file, s', deps, cut - 1);
      assert deps[..cut][..cut - 1] == deps[..cut - 1];
    }
  }

  lemma LoadKeepsOrder(env: Env, file: DepFile, s: State, name: Name)
    requires RightListed(file, Deps(file, name)) && OrderInv(file, s)
    ensures OrderInv(file, LoadedWithDeps(env, Some(file), s, name))
  {
    if name !in s.loaded {
      match LineOf(file, name) {
        case None =>
          if env.hasFile(name) {
            AttemptKeepsOrder(file, s.attempts, Attempt(name, env.works(|s.attempts|)));
          }
        case Some(line) =>
          assert line.deps[|line.deps|..] == [] && line.deps[..|line.deps|] == line.deps;
          FromRightKeepsOrder(env, file, s, line.deps, |line.deps|);
          TriedKeepsOrder(env, file, TriedFromRight(env, s, line.deps), name);
      }
    }
  }

  lemma {:induction false} LoadsKeepOrder(env: Env, file: DepFile, s: State, names: seq<Name>)
    requires AllRightListed(file, names) && OrderInv(file, s)
    ensures OrderInv(file, LoadedAll(env, Some(file), s, names))
    decreases |names|
  {
    if names != [] {
      assert names[0] in names;
      LoadKeepsOrder(env, file, s, names[0]);
      LoadsKeepOrder(env, file, LoadedWithDeps(env, Some(file), s, names[0]), names[1..]);
    }
  }

  /**
   * Whatever loads fail, every attempt follows attempts at all that module's dependencies,
   * if only the lines of the modules asked for are right-listed.
   */
  lemma DependenciesComeFirst(env: Env, file: DepFile, names: seq<Name>)
    requires AllRightListed(file, names)
    ensures Ordered(file, LoadedAll(env, Some(file), FRESH, names).attempts)
  {
    LoadsKeepOrder(env, file, FRESH, names);
  }

  // ----- The order hypothesis is exact -----

  function NamesOf(attempts: seq<Attempt>): seq<Name> {
    seq(|attempts|, i requires 0 <= i < |attempts| => attempts[i].name)
  }

  function Reversed(names: seq<Name>): (r: seq<Name>)
    ensures |r| == |names|
    ensures forall i | 0 <= i < |names| :: r[i] == names[|names| - 1 - i]
  {
    seq(|names|, i requires 0 <= i < |names| => names[|names| - 1 - i])
  }

  ghost predicate Distinct(names: seq<Name>) {
    forall i, j | 0 <= i < j < |names| :: names[i] != names[j]
  }

  lemma TryingNamesIt(env: Env, s: State, name: Name)
    requires name !in s.loaded
    ensures NamesOf(Tried(env, s, name).attempts) == NamesOf(s.attempts) + [name]
  {
  }

  lemma DistinctFromLast(deps: seq<Name>, name: Name)
    requires Distinct(deps + [name])
    ensures Distinct(deps) && name !in deps
  {
    var all := deps + [name];
    assert forall i | 0 <= i < |deps| :: deps[i] == all[i] && all[i] != all[|deps|];
  }

  /** The names attempted when a list of distinct, unloaded dependencies is tried from the right. */
  lemma {:induction false} AttemptsFromRight(env: Env, s: State, deps: seq<Name>)
    requires Distinct(deps) && forall d | d in deps :: d !in s.loaded
    ensures NamesOf(TriedFromRight(env, s, deps).attempts) == NamesOf(s.attempts) + Reversed(deps)
    ensures forall n | n in TriedFromRight(env, s, deps).loaded :: n in s.loaded || n in deps
    decreases |deps|
  {
    if deps != [] {
      var last, rest := deps[|deps| - 1], deps[..|deps| - 1];
      var s' := Tried(env, s, last);
      TryingNamesIt(env, s, last);
      AttemptsFromRight(env, s', rest);
      assert Reversed(deps) == [last] + Reversed(rest);
    }
  }

  lemma FirstLoadAttempts(env: Env, file: DepFile, line: DepLine)
    requires LineOf(file, line.name) == Some(line) && Distinct(line.deps + [line.name])
    ensures NamesOf(LoadedWithDeps(env, Some(file), FRESH, line.name).attempts) == Reversed(line.deps) + [line.name]
  {
    DistinctFromLast(line.deps, line.name);
    AttemptsFromRight(env, FRESH, line.deps);
    TryingNamesIt(env, TriedFromRight(env, FRESH, line.deps), line.name);
  }

  /** Order, stated on names alone. */
  ghost predicate NamesOrdered(file: DepFile, names: seq<Name>) {
    forall k | 0 <= k < |names| :: forall d | d in Deps(file, names[k]) :: d in names[..k]
  }

  lemma OrderIsAboutNames(file: DepFile, attempts: seq<Attempt>)
    ensures Ordered(file, attempts) <==> NamesOrdered(file, NamesOf(attempts))
  {
    var names := NamesOf(attempts);
    forall k, d | 0 <= k < |attempts|
      ensures AttemptedIn(attempts[..k], d) <==> d in names[..k]
    {
      if d in names[..k] {
        var i :| 0 <= i < k && names[i] == d;
        assert attempts[..k][i] in attempts[..k] && attempts[..k][i].name == d;
      }
      if AttemptedIn(attempts[..k], d) {
        var i :| 0 <= i < k && attempts[..k][i].name == d;
        assert names[..k][i] == d;
      }
    }
  }

  /** What lies right of a dependency in the line is attempted before it. */
  lemma RightIsBefore(deps: seq<Name>, name: Name, i: nat, d: Name)
    requires i < |deps|
    ensures d in deps[i + 1..] <==> d in (Reversed(deps) + [name])[..|deps| - 1 - i]
  {
    var before, right := (Reversed(deps) + [name])[..|deps| - 1 - i], deps[i + 1..];
    assert forall j | 0 <= j < |right| :: right[j] == before[|right| - 1 - j];
    assert forall j | 0 <= j < |before| :: before[j] == right[|right| - 1 - j];
  }

  lemma RightListedIsOrdered(file: DepFile, deps: seq<Name>, name: Name)
    requires Deps(file, name) == deps && RightListed(file, deps)
    ensures NamesOrdered(file, Reversed(deps) + [name])
  {
    var names := Reversed(deps) + [name];
    forall k, d | 0 <= k < |names| && d in Deps(file, names[k])
      ensures d in names[..k]
    {
      OrderedAt(file, deps, name, k, d);
    }
  }

  lemma OrderedAt(file: DepFile, deps: seq<Name>, name: Name, k: nat, d: Name)
    requires Deps(file, name) == deps && RightListed(file, deps)
    requires k <= |deps| && d in Deps(file, (Reversed(deps) + [name])[k])
    ensures d in (Reversed(deps) + [name])[..k]
  {
    var n, names := |deps|, Reversed(deps) + [name];
    if k < n {
      assert names[k] == deps[n - 1 - k];
      assert d in deps[(n - 1 - k) + 1..];
      RightIsBefore(deps, name, n - 1 - k, d);
    } else {
      assert names[..k] == Reversed(deps);
      var j :| 0 <= j < n && deps[j] == d;
      assert Reversed(deps)[n - 1 - j] == d;
    }
  }

  lemma OrderedIsRightListed(file: DepFile, deps: seq<Name>, name: Name)
    requires NamesOrdered(file, Reversed(deps) + [name])
    ensures RightListed(file, deps)
  {
    var n, names := |deps|, Reversed(deps) + [name];
    forall i, d | 0 <= i < n && d in Deps(file, deps[i])
      ensures d in deps[i + 1..]
    {
      assert names[n - 1 - i] == deps[i];
      RightIsBefore(deps, name, i, d);
    }
  }

  /** A module's first load respects dependencies exactly when its line is right-listed. */
  lemma OrderedIffRightListed(env: Env, file: DepFile, line: DepLine)
    requires LineOf(file, line.name) == Some(line) && Distinct(line.deps + [line.name])
    ensures Ordered(file, LoadedWithDeps(env, Some(file), FRESH, line.name).attempts) <==> RightListed(file, line.deps)
  {
    FirstLoadAttempts(env, file, line);
    OrderIsAboutNames(file, LoadedWithDeps(env, Some(file), FRESH, line.name).attempts);
    if RightListed(file, line.deps) {
      RightListedIsOrdered(file, line.deps, line.name);
    }
    if NamesOrdered(file, Reversed(line.deps) + [line.name]) {
      OrderedIsRightListed(file, line.deps, line.name);
    }
  }

  // ----- No second load, and closure -----

  ghost predicate HasLine(file: Option<DepFile>, name: Name) {
    file.Some? && LineOf(file.value, name).Some?
  }

  /** Listed modules succeed at most once, and count as loaded when they have. */
  ghost predicate OnceInv(file: Option<DepFile>, s: State) {
    && (forall a | a in s.attempts && a.ok && HasLine(file, a.name) :: a.name in s.loaded)
    && (forall i, j | 0 <= i < j < |s.attempts| && s.attempts[i].ok && s.attempts[j].ok
                      && s.attempts[i].name == s.attempts[j].name :: !HasLine(file, s.attempts[i].name))
  }

  lemma TriedKeepsOnce(env: Env, file: Option<DepFile>, s: State, name: Name)
    requires OnceInv(file, s)
    ensures OnceInv(file, Tried(env, s, name))
    ensures !HasLine(file, name) ==> OnceInv(file, TriedSingle(env, s, name))
  {
  }

  lemma {:induction false} FromRightKeepsOnce(env: Env, file: Option<DepFile>, s: State, deps: seq<Name>)
    requires OnceInv(file, s)
    ensures OnceInv(file, TriedFromRight(env, s, deps))
    decreases |deps|
  {
    if deps != [] {
      TriedKeepsOnce(env, file, s, deps[|deps| - 1]);
      FromRightKeepsOnce(env, file, Tried(env, s, deps[|deps| - 1]), deps[..|deps| - 1]);
    }
  }

  lemma {:induction false} LoadsKeepOnce(env: Env, file: Option<DepFile>, s: State, names: seq<Name>)
    requires OnceInv(file, s)
    ensures OnceInv(file, LoadedAll(env, file, s, names))
    decreases |names|
  {
    if names != [] {
      TriedKeepsOnce(env, file, s, names[0]);
      if HasLine(file, names[0]) {
        var deps := LineOf(file.value, names[0]).value.deps;
        FromRightKeepsOnce(env, file, s, deps);
        TriedKeepsOnce(env, file, TriedFromRight(env, s, deps), names[0]);
      }
      LoadsKeepOnce(env, file, LoadedWithDeps(env, file, s, names[0]), names[1..]);
    }
  }

  /** No module with a modules.dep line is successfully loaded twice, whatever is asked for. */
  lemma ListedModulesLoadOnce(env: Env, file: Option<DepFile>, names: seq<Name>)
    ensures var attempts := LoadedAll(env, file, FRESH, names).attempts;
      forall i, j | 0 <= i < j < |attempts|
                 && attempts[i].ok && attempts[j].ok && attempts[i].name == attempts[j].name ::
        !HasLine(file, attempts[i].name)
  {
    LoadsKeepOnce(env, file, FRESH, names);
  }

  ghost predicate Closed(file: DepFile, loaded: set<Name>) {
    forall n | n in loaded :: forall d | d in Deps(file, n) :: d in loaded
  }

  ghost predicate AllWork(env: Env) {
    forall n :: env.works(n)
  }

  lemma TriedKeepsClosed(env: Env, file: DepFile, s: State, name: Name)
    requires AllWork(env) && Closed(file, s.loaded)
    requires forall d | d in Deps(file, name) :: d in s.loaded
    ensures Tried(env, s, name).loaded == s.loaded + {name}
    ensures Closed(file, s.loaded + {name})
  {
  }

  lemma {:induction false} FromRightLoads(env: Env, file: DepFile, s: State, deps: seq<Name>, cut: nat)
    requires AllWork(env) && Closed(file, s.loaded) && RightListed(file, deps) && cut <= |deps|
    requires forall d | d in deps[cut..] :: d in s.loaded
    ensures Closed(file, TriedFromRight(env, s, deps[..cut]).loaded)
    ensures forall d | d in deps :: d in TriedFromRight(env, s, deps[..cut]).loaded
    decreases cut
  {
    if cut > 0 {
      var d := deps[cut - 1];
      var s' := Tried(env, s, d);
      forall x | x in Deps(file, d)
        ensures x in s.loaded
      {
        assert x in deps[(cut - 1) + 1..];
      }
      TriedKeepsClosed(env, file, s, d);
      assert deps[cut - 1..] == [d] + deps[cut..];
      FromRightLoads(env, file, s', deps, cut - 1);
      assert deps[..cut][..cut - 1] == deps[..cut - 1];
    }
  }

  lemma LoadKeepsClosed(env: Env, file: DepFile, s: State, name: Name)
    requires AllWork(env) && RightListed(file, Deps(file, name)) && Closed(file, s.loaded)
    ensures Closed(file, LoadedWithDeps(env, Some(file), s, name).loaded)
  {
    if name !in s.loaded && LineOf(file, name).Some? {
      var deps := LineOf(file, name).value.deps;
      assert deps[|deps|..] == [] && deps[..|deps|] == deps;
      FromRightLoads(env, file, s, deps, |deps|);
      TriedKeepsClosed(env, file, TriedFromRight(env, s, deps), name);
    }
  }

  lemma {:induction false} LoadsKeepClosed(env: Env, file: DepFile, s: State, names: seq<Name>)
    requires AllWork(env) && AllRightListed(file, names) && Closed(file, s.loaded)
    ensures Closed(file, LoadedAll(env, Some(file), s, names).loaded)
    decreases |names|
  {
    if names != [] {
      assert names[0] in names;
      LoadKeepsClosed(env, file, s, names[0]);
      LoadsKeepClosed(env, file, LoadedWithDeps(env, Some(file), s, names[0]), names[1..]);
    }
  }

  /** When no load fails, the loaded set contains the dependencies of all its members. */
  lemma LoadedSetIsClosed(env: Env, file: DepFile, names: seq<Name>)
    requires AllWork(env) && AllRightListed(file, names)
    ensures Closed(file, LoadedAll(env, Some(file), FRESH, names).loaded)
  {
    LoadsKeepClosed(env, file, FRESH, names);
  }

  // ----- Everything asked for is tried -----

  ghost predicate AttemptedSince(s: State, s': State, name: Name) {
    exists i | |s.attempts| <= i < |s'.attempts| :: s'.attempts[i].name == name
  }

  /** `s'` comes after `s`: new loads go as the environment has it, and only they add to what is loaded. */
  ghost predicate Follows(env: Env, s: State, s': State) {
    && s.attempts <= s'.attempts && s.loaded <= s'.loaded
    && (forall i | |s.attempts| <= i < |s'.attempts| :: s'.attempts[i].ok == env.works(i))
    && (forall n | n in s'.loaded && n !in s.loaded :: LoadedSince(s, s', n))
  }

  /** A load of the module has succeeded since. */
  ghost predicate LoadedSince(s: State, s': State, name: Name) {
    exists i | |s.attempts| <= i < |s'.attempts| :: s'.attempts[i] == Attempt(name, true)
  }

  lemma LoadedOn(s0: State, s1: State, s2: State, n: Name)
    requires s0.attempts <= s1.attempts <= s2.attempts
    requires LoadedSince(s0, s1, n) || LoadedSince(s1, s2, n)
    ensures LoadedSince(s0, s2, n)
  {
    if LoadedSince(s0, s1, n) {
      var i :| |s0.attempts| <= i < |s1.attempts| && s1.attempts[i] == Attempt(n, true);
      assert s2.attempts[i] == Attempt(n, true);
    }
  }

  lemma FollowsOn(env: Env, s0: State, s1: State, s2: State)
    requires Follows(env, s0, s1) && Follows(env, s1, s2)
    ensures Follows(env, s0, s2)
    ensures forall n | AttemptedSince(s0, s1, n) || AttemptedSince(s1, s2, n) :: AttemptedSince(s0, s2, n)
    ensures forall n | AttemptedSince(s0, s2, n) :: AttemptedSince(s0, s1, n) || AttemptedSince(s1, s2, n)
  {
    forall n | n in s2.loaded && n !in s0.loaded
      ensures LoadedSince(s0, s2, n)
    {
      LoadedOn(s0, s1, s2, n);
    }
    forall n | AttemptedSince(s0, s1, n)
      ensures AttemptedSince(s0, s2, n)
    {
      var i :| |s0.attempts| <= i < |s1.attempts| && s1.attempts[i].name == n;
      assert s2.attempts[i].name == n;
    }
    forall n | AttemptedSince(s0, s2, n)
      ensures AttemptedSince(s0, s1, n) || AttemptedSince(s1, s2, n)
    {
      var i :| |s0.attempts| <= i < |s2.attempts| && s2.attempts[i].name == n;
      if i < |s1.attempts| {
        assert s1.attempts[i].name == n;
      }
    }
  }

  /** Loaded already, or tried by the time of `s'`. */
  ghost predicate SeenTo(s: State, s': State, name: Name) {
    name in s.loaded || AttemptedSince(s, s', name)
  }

  /** Every load that has succeeded since counts as loaded. */
  ghost predicate AllRecorded(s: State, s': State) {
    forall i | |s.attempts| <= i < |s'.attempts| && s'.attempts[i].ok :: s'.attempts[i].name in s'.loaded
  }

  lemma TryingSeesTo(env: Env, s: State, name: Name)
    ensures var s' := Tried(env, s, name);
      && Follows(env, s, s') && SeenTo(s, s', name)
      && (forall n | AttemptedSince(s, s', n) :: n == name)
      && (AllWork(env) ==> name in s'.loaded)
      && AllRecorded(s, s')
  {
    var s' := Tried(env, s, name);
    if name !in s.loaded {
      assert s'.attempts[|s.attempts|].name == name;
    }
  }

  lemma {:induction false} TryingFromRightSeesTo(env: Env, s: State, deps: seq<Name>)
    ensures var s' := TriedFromRight(env, s, deps);
      && Follows(env, s, s')
      && (forall d | d in deps :: SeenTo(s, s', d) && (AllWork(env) ==> d in s'.loaded))
      && AllRecorded(s, s')
      && (forall n | AttemptedSince(s, s', n) :: n in deps)
    decreases |deps|
  {
    if deps != [] {
      var front, last := deps[..|deps| - 1], deps[|deps| - 1];
      var s1 := Tried(env, s, last);
      TryingSeesTo(env, s, last);
      TryingFromRightSeesTo(env, s1, front);
      FollowsOn(env, s, s1, TriedFromRight(env, s1, front));
      assert deps == front + [last];
    }
  }

  /** Whether anything is there to load under this name. */
  ghost predicate Loadable(env: Env, file: Option<DepFile>, name: Name) {
    HasLine(file, name) || env.hasFile(name)
  }

  ghost predicate Concerns(file: Option<DepFile>, name: Name, n: Name) {
    n == name || (file.Some? && n in Deps(file.value, name))
  }

  /** A module's turn: it is seen to and, unless loaded before, so are the dependencies on its line. */
  lemma LoadSeesTo(env: Env, file: Option<DepFile>, s: State, name: Name)
    ensures var s' := LoadedWithDeps(env, file, s, name);
      && Follows(env, s, s')
      && (Loadable(env, file, name) ==> SeenTo(s, s', name))
      && (name !in s.loaded && HasLine(file, name) ==> forall d | d in Deps(file.value, name) :: SeenTo(s, s', d))
      && (forall n | AttemptedSince(s, s', n) :: Concerns(file, name, n))
      && (AllWork(env) && HasLine(file, name) ==> name in s'.loaded)
      && (if HasLine(file, name) then AllRecorded(s, s') else s'.loaded == s.loaded)
  {
    var s' := LoadedWithDeps(env, file, s, name);
    if name !in s.loaded {
      if HasLine(file, name) {
        var s1 := TriedFromRight(env, s, Deps(file.value, name));
        TryingFromRightSeesTo(env, s, Deps(file.value, name));
        TryingSeesTo(env, s1, name);
        FollowsOn(env, s, s1, s');
      } else if env.hasFile(name) {
        assert s'.attempts[|s.attempts|].name == name;
      }
    }
  }

  /**
   * Whatever is asked for and whatever fails: every name that has a line or a file has been
   * loaded or is tried; so are the dependencies of every listed name not loaded when its turn
   * comes; nothing else is; what counts as loaded since is what was loaded for a listed name;
   * and when all loads work, every listed name ends up loaded.
   */
  lemma {:induction false} EverythingAskedForIsTried(env: Env, file: Option<DepFile>, s: State, names: seq<Name>)
    ensures var s' := LoadedAll(env, file, s, names);
      && Follows(env, s, s')
      && (forall n | n in names && Loadable(env, file, n) :: SeenTo(s, s', n))
      && (forall n | AttemptedSince(s, s', n) :: exists name | name in names :: Concerns(file, name, n))
      && (AllWork(env) ==> forall n | n in names && HasLine(file, n) :: n in s'.loaded)
      && (forall n | n in s'.loaded && n !in s.loaded ::
            exists name | name in names :: HasLine(file, name) && Concerns(file, name, n))
    ensures forall k | 0 <= k < |names| ::
              var turn := LoadedAll(env, file, s, names[..k]);
              names[k] !in turn.loaded && HasLine(file, names[k]) ==>
                forall d | d in Deps(file.value, names[k]) :: SeenTo(turn, LoadedAll(env, file, s, names), d)
    decreases |names|
  {
    if names != [] {
      var s1, s' := LoadedWithDeps(env, file, s, names[0]), LoadedAll(env, file, s, names);
      LoadSeesTo(env, file, s, names[0]);
      EverythingAskedForIsTried(env, file, s1, names[1..]);
      FollowsOn(env, s, s1, s');
      assert names == [names[0]] + names[1..] && names[0] in names;
      forall n | n in s1.loaded && n !in s.loaded
        ensures HasLine(file, names[0]) && Concerns(file, names[0], n)
      {
        var i :| |s.attempts| <= i < |s1.attempts| && s1.attempts[i] == Attempt(n, true);
        assert AttemptedSince(s, s1, n);
      }
      forall k | 0 <= k < |names|
        ensures var turn := LoadedAll(env, file, s, names[..k]);
                names[k] !in turn.loaded && HasLine(file, names[k]) ==>
                  forall d | d in Deps(file.value, names[k]) :: SeenTo(turn, s', d)
      {
        if k == 0 {
          assert names[..0] == [];
        } else {
          assert names[..k][1..] == names[1..][..k - 1] && names[..k][0] == names[0];
          assert LoadedAll(env, file, s, names[..k]) == LoadedAll(env, file, s1, names[1..][..k - 1]);
          assert names[k] == names[1..][k - 1];
        }
      }
    }
  }

  // ----- The loader -----

  const REQUIRED: seq<Name> :=
    ["virtio_net", "virtio_pci", "virtio_mmio", "nft_masq", "nft_chain_nat", "nft_ct"]

  class Loader {
    var loaded: set<Name>
    var attempts: seq<Attempt>
    const env: Env
    const file: Option<DepFile>

    ghost function View(): State
      reads this
    {
      State(loaded, attempts)
    }

    constructor (env: Env, file: Option<DepFile>)
      ensures View() == FRESH && this.env == env && this.file == file
    {
      loaded := {};
      attempts := [];
      this.env := env;
      this.file := file;
    }

    /** One load, its outcome decided by the environment. */
    method Load(name: Name) returns (ok: bool)
      modifies this`attempts
      ensures ok == env.works(|old(attempts)|) && attempts == old(attempts) + [Attempt(name, ok)]
    {
      ok := env.works(|attempts|);
      attempts := attempts + [Attempt(name, ok)];
    }

    method LoadUnlessLoaded(name: Name)
      modifies this
      ensures View() == Tried(env, old(View()), name)
    {
      if name !in loaded {
        var ok := Load(name);
        if ok {
          loaded := loaded + {name};
        }
      }
    }

    method LoadSingleModule(name: Name)
      modifies this
      ensures View() == TriedSingle(env, old(View()), name)
    {
      if env.hasFile(name) {
        var _ := Load(name);
      }
    }

    method LoadModuleWithDependencies(name: Name)
      modifies this
      ensures View() == LoadedWithDeps(env, file, old(View()), name)
    {
      if name in loaded {
        return;
      }
      if file.None? {
        LoadSingleModule(name);
        return;
      }
      var lines := file.value;
      var found := false;
      var i := 0;
      while i < |lines|
        invariant 0 <= i <= |lines| && !found && View() == old(View())
        invariant LineOf(lines, name) == LineOf(lines[i..], name)
      {
        if lines[i].name == name {
          found := true;
          LoadLine(lines[i]);
          break;
        }
        assert lines[i..][1..] == lines[i + 1..];
        i := i + 1;
      }
      if !found {
        LoadSingleModule(name);
      }
    }

    method LoadLine(line: DepLine)
      modifies this
      ensures View() == Tried(env, TriedFromRight(env, old(View()), line.deps), line.name)
    {
      var k := |line.deps|;
      assert line.deps[..k] == line.deps;
      while k > 0
        invariant 0 <= k <= |line.deps|
        invariant TriedFromRight(env, View(), line.deps[..k]) == TriedFromRight(env, old(View()), line.deps)
      {
        k := k - 1;
        assert line.deps[..k + 1][..k] == line.deps[..k];
        LoadUnlessLoaded(line.deps[k]);
      }
      LoadUnlessLoaded(line.name);
    }

    method LoadRequiredModules()
      modifies this
      ensures View() == LoadedAll(env, file, old(View()), REQUIRED)
      ensures Follows(env, old(View()), View())
      ensures var required := ["virtio_net", "virtio_pci", "virtio_mmio", "nft_masq", "nft_chain_nat", "nft_ct"];
        && (forall n | n in required && Loadable(env, file, n) :: SeenTo(old(View()), View(), n))
        && (AllWork(env) ==> forall n | n in required && HasLine(file, n) :: n in loaded)
    {
      EverythingAskedForIsTried(env, file, View(), REQUIRED);
      assert REQUIRED[0..] == REQUIRED;
      for i := 0 to |REQUIRED|
        invariant LoadedAll(env, file, View(), REQUIRED[i..]) == LoadedAll(env, file, old(View()), REQUIRED)
      {
        assert REQUIRED[i..][1..] == REQUIRED[i + 1..];
        LoadModuleWithDependencies(REQUIRED[i]);
      }
    }
  }
}
