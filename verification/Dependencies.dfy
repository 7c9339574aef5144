/** Transitive file dependencies (connector/grpc/reflect.go, collectMissingDeps and resolveTransitiveDeps). */
module Dependencies {
  import opened Wrappers

  datatype File = File(name: string, deps: seq<string>)

  type Files = map<string, File>

  datatype FetchError = FetchError(name: string)

  type Fetcher = string -> Result<seq<File>, FetchError>

  // ---- The universe -----------------------------------------------------

  /** Every file is stored under its own name. */
  ghost predicate Named(universe: Files) {
    forall n :: n in universe ==> universe[n].name == n
  }

  /** And depends on files that exist. */
  ghost predicate Consistent(universe: Files) {
    Named(universe) && forall n, d :: n in universe && d in universe[n].deps ==> d in universe
  }

  /** A set of names that contains the dependencies of its members. */
  ghost predicate DepClosed(universe: Files, names: set<string>) {
    && names <= universe.Keys
    && forall n, d :: n in names && d in universe[n].deps ==> d in names
  }

  /** Every reply consists of files of the universe. It may be empty: the server need not know the file. */
  ghost predicate Known(universe: Files, fetch: Fetcher) {
    forall n, f :: fetch(n).Ok? && f in fetch(n).value ==> f.name in universe && universe[f.name] == f
  }

  /** A reply to `n` holds the file `n`, together with files that `n` depends on, directly or not. */
  ghost predicate Faithful(universe: Files, fetch: Fetcher) {
    forall n :: n in universe && fetch(n).Ok? ==>
      && universe[n] in fetch(n).value
      && forall f, s :: f in fetch(n).value && DepClosed(universe, s) && n in s ==> f.name in s
  }

  ghost predicate SubFiles(a: Files, b: Files) {
    forall n :: n in a ==> n in b && a[n] == b[n]
  }

  /** `result` holds the smallest dependency-closed set of files that contains `initial`. */
  ghost predicate IsClosure(universe: Files, initial: Files, result: Files) {
    && SubFiles(initial, result) && SubFiles(result, universe)
    && DepClosed(universe, result.Keys)
    && forall s :: DepClosed(universe, s) && initial.Keys <= s ==> result.Keys <= s
  }

  /** All names that some file needs and that are not there yet. */
  function Missing(files: Files): set<string> {
    set n, d | n in files && d in files[n].deps && d !in files :: d
  }

  method CollectMissingDeps(files: Files) returns (missing: set<string>)
    ensures missing == Missing(files)
  {
    missing := {};
    var todo := files.Keys;
    while todo != {}
      invariant todo <= files.Keys
      invariant forall x :: x in missing <==> exists n :: n in files.Keys - todo && x in files[n].deps && x !in files
      decreases |todo|
    {
      var n :| n in todo;
      var deps := files[n].deps;
      ghost var before := missing;
      for i := 0 to |deps|
        invariant forall x :: x in missing <==> x in before || (x in deps[..i] && x !in files)
      {
        if deps[i] !in files {
          missing := missing + {deps[i]};
        }
      }
      assert deps[..|deps|] == deps;
      todo := todo - {n};
    }
  }

  // ---- Rounds -----------------------------------------------------------

  /** The files of the replies to all of `names`. */
  function Replied(fetch: Fetcher, names: set<string>): set<string> {
    set n, f | n in names && fetch(n).Ok? && f in fetch(n).value :: f.name
  }

  ghost predicate Fails(fetch: Fetcher, names: set<string>) {
    exists n :: n in names && fetch(n).Err?
  }

  /** `files` with the replies to `names` added, in whatever order they came. */
  ghost function Added(universe: Files, fetch: Fetcher, files: Files, names: set<string>): Files
    requires Known(universe, fetch)
  {
    map n | n in files.Keys + Replied(fetch, names) :: if n in files then files[n] else universe[n]
  }

  /** Nothing is missing, or the round fails. */
  ghost predicate Done(fetch: Fetcher, files: Files) {
    Missing(files) == {} || Fails(fetch, Missing(files))
  }

  /** The files after `k` rounds, or when the loop ended. */
  ghost function After(universe: Files, fetch: Fetcher, initial: Files, k: nat): Files
    requires Known(universe, fetch)
  {
    if k == 0 then initial
    else
      var files := After(universe, fetch, initial, k - 1);
      if Done(fetch, files) then files else Added(universe, fetch, files, Missing(files))
  }

  ghost predicate Ends(universe: Files, fetch: Fetcher, initial: Files)
    requires Known(universe, fetch)
  {
    exists k: nat :: Done(fetch, After(universe, fetch, initial, k))
  }

  /** A round that asks for something, does not fail and adds nothing. */
  ghost predicate Stalls(universe: Files, fetch: Fetcher, files: Files)
    requires Known(universe, fetch)
  {
    !Done(fetch, files) && Added(universe, fetch, files, Missing(files)) == files
  }

  lemma AddedWithin(universe: Files, fetch: Fetcher, files: Files, names: set<string>)
    requires Known(universe, fetch) && SubFiles(files, universe)
    ensures SubFiles(files, Added(universe, fetch, files, names))
    ensures SubFiles(Added(universe, fetch, files, names), universe)
  {
  }

  lemma {:induction false} AfterWithin(universe: Files, fetch: Fetcher, initial: Files, k: nat)
    requires Known(universe, fetch) && SubFiles(initial, universe)
    ensures SubFiles(After(universe, fetch, initial, k), universe)
  {
    hide Added;
    if k > 0 {
      AfterWithin(universe, fetch, initial, k - 1);
      var files := After(universe, fetch, initial, k - 1);
      AddedWithin(universe, fetch, files, Missing(files));
    }
  }

  lemma RoundAdds(universe: Files, fetch: Fetcher, files: Files)
    requires Known(universe, fetch) && SubFiles(files, universe)
    requires !Done(fetch, files) && !Stalls(universe, fetch, files)
    ensures var next := Added(universe, fetch, files, Missing(files));
            files.Keys <= next.Keys && |files.Keys| < |next.Keys|
  {
    hide Added;
    AddedWithin(universe, fetch, files, Missing(files));
    hide Done;
    hide Missing;
    Grows(files, Added(universe, fetch, files, Missing(files)));
  }

  /** Without a stall every round adds a file. */
  lemma {:induction false} RoundsGrow(universe: Files, fetch: Fetcher, initial: Files, k: nat)
    requires Known(universe, fetch) && SubFiles(initial, universe)
    requires forall j: nat :: !Stalls(universe, fetch, After(universe, fetch, initial, j))
    ensures Done(fetch, After(universe, fetch, initial, k)) || |After(universe, fetch, initial, k).Keys| >= k
  {
    hide Added;
    hide Done;
    hide Missing;
    hide Stalls;
    hide SubFiles;
    hide Known;
    if k > 0 {
      RoundsGrow(universe, fetch, initial, k - 1);
      AfterWithin(universe, fetch, initial, k - 1);
      var files := After(universe, fetch, initial, k - 1);
      if !Done(fetch, files) {
        assert !Stalls(universe, fetch, files);
        RoundAdds(universe, fetch, files);
      }
    }
  }

  lemma Grows(a: Files, b: Files)
    requires SubFiles(a, b) && a != b
    ensures a.Keys <= b.Keys && |a.Keys| < |b.Keys|
  {
    var x := Outside(b.Keys, a.Keys);
    Shrinks(b.Keys, a.Keys, x);
  }

  lemma Outside(a: set<string>, b: set<string>) returns (x: string)
    requires b <= a && a != b
    ensures x in a && x !in b
  {
    x :| x in a && x !in b;
  }

  lemma {:induction false} StallsForEver(universe: Files, fetch: Fetcher, initial: Files, k: nat, j: nat)
    requires Known(universe, fetch) && k <= j
    requires Stalls(universe, fetch, After(universe, fetch, initial, k))
    ensures After(universe, fetch, initial, j) == After(universe, fetch, initial, k)
    decreases j
  {
    hide Added;
    hide Done;
    if k < j {
      StallsForEver(universe, fetch, initial, k, j - 1);
    }
  }

  lemma {:induction false} DoneForEver(universe: Files, fetch: Fetcher, initial: Files, k: nat, j: nat)
    requires Known(universe, fetch) && k <= j && Done(fetch, After(universe, fetch, initial, k))
    ensures After(universe, fetch, initial, j) == After(universe, fetch, initial, k)
    decreases j
  {
    hide Added;
    hide Done;
    if k < j {
      DoneForEver(universe, fetch, initial, k, j - 1);
    }
  }

  ghost predicate NeverStalls(universe: Files, fetch: Fetcher, initial: Files)
    requires Known(universe, fetch)
  {
    forall k: nat :: !Stalls(universe, fetch, After(universe, fetch, initial, k))
  }

  lemma EndsWithoutStalls(universe: Files, fetch: Fetcher, initial: Files)
    requires Known(universe, fetch) && SubFiles(initial, universe) && NeverStalls(universe, fetch, initial)
    ensures Ends(universe, fetch, initial)
  {
    var k: nat := |universe.Keys| + 1;
    RoundsGrow(universe, fetch, initial, k);
    AfterWithin(universe, fetch, initial, k);
    SubsetSize(After(universe, fetch, initial, k).Keys, universe.Keys);
    hide After;
    assert Done(fetch, After(universe, fetch, initial, k));
  }

  lemma NoStallBeforeEnd(universe: Files, fetch: Fetcher, initial: Files, j: nat, k: nat)
    requires Known(universe, fetch) && Done(fetch, After(universe, fetch, initial, j))
    ensures !Stalls(universe, fetch, After(universe, fetch, initial, k))
  {
    hide After;
    if Stalls(universe, fetch, After(universe, fetch, initial, k)) {
      if k <= j {
        StallsForEver(universe, fetch, initial, k, j);
      } else {
        DoneForEver(universe, fetch, initial, j, k);
      }
    }
  }

  /** The loop ends exactly when no round stalls. */
  lemma EndsIffNeverStalls(universe: Files, fetch: Fetcher, initial: Files)
    requires Known(universe, fetch) && SubFiles(initial, universe)
    ensures Ends(universe, fetch, initial) <==> NeverStalls(universe, fetch, initial)
  {
    hide After;
    hide Done;
    if NeverStalls(universe, fetch, initial) {
      EndsWithoutStalls(universe, fetch, initial);
    }
    if Ends(universe, fetch, initial) {
      var j: nat :| Done(fetch, After(universe, fetch, initial, j));
      hide Stalls;
      forall k: nat ensures !Stalls(universe, fetch, After(universe, fetch, initial, k)) {
        NoStallBeforeEnd(universe, fetch, initial, j, k);
      }
    }
  }

  /** A server that answers nothing to the missing names is asked for them for ever. */
  lemma SilentServerSpins(universe: Files, fetch: Fetcher, initial: Files)
    requires Known(universe, fetch) && SubFiles(initial, universe) && Missing(initial) != {}
    requires forall n :: n in Missing(initial) ==> fetch(n) == Ok([])
    ensures !Ends(universe, fetch, initial)
  {
    assert Replied(fetch, Missing(initial)) == {};
    assert Added(universe, fetch, initial, Missing(initial)) == initial;
    AfterUnfolds(universe, fetch, initial, 0);
    assert Stalls(universe, fetch, After(universe, fetch, initial, 0));
    EndsIffNeverStalls(universe, fetch, initial);
  }

  /** A fetcher that returns the file asked for never stalls. */
  lemma FaithfulEnds(universe: Files, fetch: Fetcher, initial: Files)
    requires Consistent(universe) && Known(universe, fetch) && Faithful(universe, fetch) && SubFiles(initial, universe)
    ensures Ends(universe, fetch, initial)
  {
    forall k: nat ensures !Stalls(universe, fetch, After(universe, fetch, initial, k)) {
      var files := After(universe, fetch, initial, k);
      AfterWithin(universe, fetch, initial, k);
      if !Done(fetch, files) {
        var name :| name in Missing(files);
        MissingExists(universe, files, name);
        assert universe[name] in fetch(name).value;
        assert name in Replied(fetch, Missing(files));
        assert name in Added(universe, fetch, files, Missing(files));
      }
    }
    EndsIffNeverStalls(universe, fetch, initial);
  }

  lemma MissingExists(universe: Files, files: Files, name: string)
    requires Consistent(universe) && SubFiles(files, universe) && name in Missing(files)
    ensures name in universe
  {
    var n :| n in files && name in files[n].deps;
    assert universe[n] == files[n];
  }

  // ---- The closure ------------------------------------------------------

  /** Everything found belongs to every closed set around the initial files. */
  ghost predicate OnTheWay(universe: Files, initial: Files, files: Files) {
    && SubFiles(initial, files) && SubFiles(files, universe)
    && forall s :: DepClosed(universe, s) && initial.Keys <= s ==> files.Keys <= s
  }

  lemma MissingIsNeeded(universe: Files, initial: Files, files: Files, name: string, s: set<string>)
    requires OnTheWay(universe, initial, files) && name in Missing(files)
    requires DepClosed(universe, s) && initial.Keys <= s
    ensures name in s
  {
    var n :| n in files && name in files[n].deps;
    assert universe[n] == files[n] && n in s;
  }

  /** A round of a faithful fetcher adds only what every closed set has anyway. */
  lemma RoundStaysOnTheWay(universe: Files, fetch: Fetcher, initial: Files, files: Files)
    requires Consistent(universe) && Known(universe, fetch) && Faithful(universe, fetch)
    requires OnTheWay(universe, initial, files)
    ensures OnTheWay(universe, initial, Added(universe, fetch, files, Missing(files)))
  {
    var next := Added(universe, fetch, files, Missing(files));
    AddedWithin(universe, fetch, files, Missing(files));
    forall s, x | DepClosed(universe, s) && initial.Keys <= s && x in next.Keys ensures x in s {
      if x !in files {
        var n, f :| n in Missing(files) && fetch(n).Ok? && f in fetch(n).value && f.name == x;
        MissingExists(universe, files, n);
        MissingIsNeeded(universe, initial, files, n, s);
      }
    }
  }

  lemma {:induction false} AfterOnTheWay(universe: Files, fetch: Fetcher, initial: Files, k: nat)
    requires Consistent(universe) && Known(universe, fetch) && Faithful(universe, fetch) && SubFiles(initial, universe)
    ensures OnTheWay(universe, initial, After(universe, fetch, initial, k))
  {
    hide Faithful;
    hide Added;
    if k > 0 {
      AfterOnTheWay(universe, fetch, initial, k - 1);
      RoundStaysOnTheWay(universe, fetch, initial, After(universe, fetch, initial, k - 1));
    }
  }

  /** With a faithful fetcher, what the loop ends with is the closure. */
  lemma EndIsClosure(universe: Files, fetch: Fetcher, initial: Files, k: nat)
    requires Consistent(universe) && Known(universe, fetch) && Faithful(universe, fetch) && SubFiles(initial, universe)
    requires Missing(After(universe, fetch, initial, k)) == {}
    ensures IsClosure(universe, initial, After(universe, fetch, initial, k))
  {
    AfterOnTheWay(universe, fetch, initial, k);
    NothingMissing(universe, After(universe, fetch, initial, k));
  }

  // ---- The loop ---------------------------------------------------------

  /** Fetches every name of `missing`, in an arbitrary order. */
  method FetchAll(ghost universe: Files, before: Files, missing: set<string>, fetch: Fetcher)
    returns (r: Result<Files, FetchError>)
    requires Known(universe, fetch) && SubFiles(before, universe)
    ensures r.Ok? <==> !Fails(fetch, missing)
    ensures r.Ok? ==> r.value == Added(universe, fetch, before, missing)
    ensures r.Err? ==> exists n :: n in missing && fetch(n) == Err(r.error)
  {
    var files := before;
    var todo := missing;
    while todo != {}
      invariant todo <= missing && files == Added(universe, fetch, before, missing - todo)
      invariant forall n :: n in missing - todo ==> fetch(n).Ok?
      decreases |todo|
    {
      var name :| name in todo;
      var fetched := fetch(name);
      if fetched.Err? {
        return Err(fetched.error);
      }
      AddedMore(universe, fetch, before, missing - todo, name);
      assert missing - (todo - {name}) == (missing - todo) + {name};
      files := AddAll(universe, files, fetched.value);
      todo := todo - {name};
    }
    assert missing - todo == missing;
    return Ok(files);
  }

  /** `files` with the listed ones put under their names. */
  ghost function With(files: Files, fds: seq<File>): Files {
    if fds == [] then files else With(files, fds[..|fds| - 1])[fds[|fds| - 1].name := fds[|fds| - 1]]
  }

  lemma {:induction false} WithIs(universe: Files, files: Files, fds: seq<File>)
    requires SubFiles(files, universe)
    requires forall f :: f in fds ==> f.name in universe && universe[f.name] == f
    ensures With(files, fds).Keys == files.Keys + set f | f in fds :: f.name
    ensures SubFiles(With(files, fds), universe)
    decreases fds
  {
    if fds != [] {
      var n := |fds| - 1;
      WithIs(universe, files, fds[..n]);
      assert fds == fds[..n] + [fds[n]];
    }
  }

  lemma AddedMore(universe: Files, fetch: Fetcher, before: Files, names: set<string>, name: string)
    requires Known(universe, fetch) && SubFiles(before, universe) && fetch(name).Ok?
    ensures With(Added(universe, fetch, before, names), fetch(name).value) ==
            Added(universe, fetch, before, names + {name})
  {
    var files, fds := Added(universe, fetch, before, names), fetch(name).value;
    AddedWithin(universe, fetch, before, names);
    AddedWithin(universe, fetch, before, names + {name});
    WithIs(universe, files, fds);
    hide With;
    SameFiles(universe, With(files, fds), Added(universe, fetch, before, names + {name}));
  }

  lemma SameFiles(universe: Files, a: Files, b: Files)
    requires SubFiles(a, universe) && SubFiles(b, universe) && a.Keys == b.Keys
    ensures a == b
  {
  }

  method AddAll(ghost universe: Files, before: Files, fds: seq<File>) returns (files: Files)
    ensures files == With(before, fds)
  {
    files := before;
    for i := 0 to |fds|
      invariant files == With(before, fds[..i])
    {
      assert fds[..i + 1][..i] == fds[..i];
      var fd := fds[i];
      files := files[fd.name := fd];
    }
    assert fds[..|fds|] == fds;
  }

  /** Ends on every fetcher that does not stall, with files that miss nothing or with an error of the fetcher.
      Of a faithful fetcher it returns the closure. */
  method ResolveTransitiveDeps(ghost universe: Files, initial: Files, fetch: Fetcher)
    returns (r: Result<Files, FetchError>)
    requires Known(universe, fetch) && SubFiles(initial, universe) && Ends(universe, fetch, initial)
    ensures r.Ok? ==> SubFiles(initial, r.value) && SubFiles(r.value, universe) && Missing(r.value) == {}
    ensures r.Ok? && Consistent(universe) && Faithful(universe, fetch) ==> IsClosure(universe, initial, r.value)
    ensures r.Err? ==> exists n :: fetch(n) == Err(r.error)
  {
    hide After;
    hide Added;
    hide Faithful;
    hide Consistent;
    hide Missing;
    var files := initial;
    ghost var k: nat := 0;
    EndsIffNeverStalls(universe, fetch, initial);
    AfterUnfolds(universe, fetch, initial, 0);
    assert SubFiles(initial, initial);
    while true
      invariant files == After(universe, fetch, initial, k)
      invariant SubFiles(initial, files) && SubFiles(files, universe)
      decreases |universe.Keys - files.Keys|
    {
      var missing := CollectMissingDeps(files);
      if |missing| == 0 {
        if Consistent(universe) && Faithful(universe, fetch) {
          EndIsClosure(universe, fetch, initial, k);
        }
        return Ok(files);
      }
      var fetched := FetchAll(universe, files, missing, fetch);
      if fetched.Err? {
        return Err(fetched.error);
      }
      assert !Stalls(universe, fetch, After(universe, fetch, initial, k));
      RoundGoesOn(universe, fetch, initial, files);
      AfterUnfolds(universe, fetch, initial, k);
      files, k := fetched.value, k + 1;
    }
  }

  /** A round that asks for something and does not fail leaves fewer files of the universe. */
  lemma RoundGoesOn(universe: Files, fetch: Fetcher, initial: Files, files: Files)
    requires Known(universe, fetch) && SubFiles(initial, files) && SubFiles(files, universe)
    requires !Done(fetch, files) && !Stalls(universe, fetch, files)
    ensures var next := Added(universe, fetch, files, Missing(files));
            && SubFiles(initial, next) && SubFiles(next, universe)
            && |universe.Keys - next.Keys| < |universe.Keys - files.Keys|
  {
    hide Added;
    hide Done;
    hide Stalls;
    hide Missing;
    var next := Added(universe, fetch, files, Missing(files));
    AddedWithin(universe, fetch, files, Missing(files));
    RoundAdds(universe, fetch, files);
  }

  lemma AfterUnfolds(universe: Files, fetch: Fetcher, initial: Files, k: nat)
    requires Known(universe, fetch)
    ensures After(universe, fetch, initial, 0) == initial
    ensures var files := After(universe, fetch, initial, k);
            !Done(fetch, files) ==>
              After(universe, fetch, initial, k + 1) == Added(universe, fetch, files, Missing(files))
  {
    hide Added;
    hide Done;
  }

  lemma Shrinks(a: set<string>, b: set<string>, x: string)
    requires b <= a && x in a && x !in b
    ensures |b| < |a|
  {
    assert b <= a - {x};
    SubsetSize(b, a - {x});
  }

  lemma {:induction false} SubsetSize(a: set<string>, b: set<string>)
    requires a <= b
    ensures |a| <= |b|
    decreases |a|
  {
    if a != {} {
      var x :| x in a;
      SubsetSize(a - {x}, b - {x});
    }
  }

  lemma NothingMissing(universe: Files, files: Files)
    requires SubFiles(files, universe) && Missing(files) == {}
    ensures DepClosed(universe, files.Keys)
  {
    forall n, d | n in files.Keys && d in universe[n].deps ensures d in files.Keys {
      assert d !in Missing(files);
    }
  }

  /** The answer does not depend on the order of the fetches: there is only one. */
  lemma ClosureIsUnique(universe: Files, initial: Files, a: Files, b: Files)
    requires IsClosure(universe, initial, a) && IsClosure(universe, initial, b)
    ensures a == b
  {
    assert a.Keys <= b.Keys && b.Keys <= a.Keys;
    assert forall n :: n in a ==> a[n] == universe[n] == b[n];
  }
}
