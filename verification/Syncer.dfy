// The syncer: a local copy of the tenants and modules of a versioned source.
module Syncers {
  import opened Wrappers

  datatype Module = Module(ref: string, namespace: string, name: string, code: string)

  datatype Overview = Overview(version: int, modules: seq<Module>)

  type Overviews = map<string, Overview>

  type Modules = map<string, Module>

  /** What the source answers during one run: its system version and its tenants' versions, when
      it answers at all, and the overviews of the tenants that can be fetched. */
  datatype Snapshot = Snapshot(version: Option<int>, listing: Option<map<string, int>>, fetched: Overviews)

  datatype Local = Local(version: int, tenantIdents: map<string, int>, overviews: Overviews, modules: Modules)

  datatype Outcome = Skipped | Synced | Failed

  const EMPTY_LOCAL := Local(0, map[], map[], map[])

  /** A tenant must be fetched unless the local overview has the listed version. */
  predicate Stale(overviews: Overviews, listing: map<string, int>, ident: string)
    requires ident in listing
  {
    !(ident in overviews && overviews[ident].version == listing[ident])
  }

  /** The overviews once the tenants in `done` have been brought up to date. */
  function Updated(overviews: Overviews, listing: map<string, int>, fetched: Overviews, done: set<string>): Overviews {
    overviews + map ident | ident in done && ident in listing && ident in fetched && Stale(overviews, listing, ident)
                :: fetched[ident]
  }

  /** The modules written meanwhile. */
  function Written(overviews: Overviews, listing: map<string, int>, fetched: Overviews,
                   done: set<string>): set<Module> {
    set ident, m | ident in done && ident in listing && ident in fetched && Stale(overviews, listing, ident)
                   && m in fetched[ident].modules :: m
  }

  /** Each reference finds one of the modules written for it, or what it found before. */
  ghost predicate Indexed(before: Modules, written: set<Module>, after: Modules) {
    && (forall ref | ref in before :: ref in after)
    && (forall m | m in written :: m.ref in after && after[m.ref] in written)
    && (forall ref | ref in after :: (after[ref] in written && after[ref].ref == ref)
                                     || (ref in before && after[ref] == before[ref]))
  }

  lemma IndexOne(before: Modules, written: set<Module>, after: Modules, m: Module)
    requires Indexed(before, written, after)
    ensures Indexed(before, written + {m}, after[m.ref := m])
  {
  }

  function SetOf(mods: seq<Module>): set<Module> {
    set m | m in mods
  }

  lemma SetOfGrows(mods: seq<Module>, i: nat)
    requires i < |mods|
    ensures SetOf(mods[..i + 1]) == SetOf(mods[..i]) + {mods[i]}
  {
    assert mods[..i + 1] == mods[..i] + [mods[i]];
  }

  lemma IndexNext(before: Modules, written: set<Module>, mods: seq<Module>, i: nat, after: Modules)
    requires i < |mods| && Indexed(before, written + SetOf(mods[..i]), after)
    ensures Indexed(before, written + SetOf(mods[..i + 1]), after[mods[i].ref := mods[i]])
  {
    IndexOne(before, written + SetOf(mods[..i]), after, mods[i]);
    SetOfGrows(mods, i);
    assert written + SetOf(mods[..i + 1]) == written + SetOf(mods[..i]) + {mods[i]};
  }

  /** The tenants in `done` could be, and were, brought up to date. */
  ghost predicate UpToDate(a: Local, listing: map<string, int>, fetched: Overviews, done: set<string>,
                           overviews: Overviews)
  {
    && done <= listing.Keys
    && (forall ident | ident in done && Stale(a.overviews, listing, ident) :: ident in fetched)
    && overviews == Updated(a.overviews, listing, fetched, done)
  }

  /** They were, and their modules were indexed. */
  ghost predicate Progress(a: Local, listing: map<string, int>, fetched: Overviews, done: set<string>,
                           overviews: Overviews, modules: Modules)
  {
    && UpToDate(a, listing, fetched, done, overviews)
    && Indexed(a.modules, Written(a.overviews, listing, fetched, done), modules)
  }

  lemma WrittenStep(overviews: Overviews, listing: map<string, int>, fetched: Overviews,
                    done: set<string>, ident: string)
    requires ident in listing
    ensures Written(overviews, listing, fetched, done + {ident})
         == Written(overviews, listing, fetched, done)
            + if ident in fetched && Stale(overviews, listing, ident) then SetOf(fetched[ident].modules) else {}
  {
  }

  lemma UpdatedStep(overviews: Overviews, listing: map<string, int>, fetched: Overviews,
                    done: set<string>, ident: string)
    requires ident in listing
    ensures Updated(overviews, listing, fetched, done + {ident})
         == if ident in fetched && Stale(overviews, listing, ident)
            then Updated(overviews, listing, fetched, done)[ident := fetched[ident]]
            else Updated(overviews, listing, fetched, done)
    ensures ident !in done ==>
              Stale(Updated(overviews, listing, fetched, done), listing, ident) == Stale(overviews, listing, ident)
  {
  }

  /** The next tenant is up to date already, or is fetched. */
  lemma NextUpToDate(a: Local, listing: map<string, int>, fetched: Overviews, done: set<string>,
                     overviews: Overviews, ident: string)
    requires UpToDate(a, listing, fetched, done, overviews) && ident in listing && ident !in done
    ensures !Stale(overviews, listing, ident) ==>
              && UpToDate(a, listing, fetched, done + {ident}, overviews)
              && Written(a.overviews, listing, fetched, done + {ident}) == Written(a.overviews, listing, fetched, done)
    ensures Stale(overviews, listing, ident) && ident !in fetched ==> Missing(a, listing, fetched, ident)
    ensures Stale(overviews, listing, ident) && ident in fetched ==>
              && UpToDate(a, listing, fetched, done + {ident}, overviews[ident := fetched[ident]])
              && Written(a.overviews, listing, fetched, done + {ident})
                 == Written(a.overviews, listing, fetched, done) + SetOf(fetched[ident].modules)
  {
    UpdatedStep(a.overviews, listing, fetched, done, ident);
    WrittenStep(a.overviews, listing, fetched, done, ident);
  }

  lemma NoProgress(a: Local, listing: map<string, int>, fetched: Overviews)
    ensures Progress(a, listing, fetched, {}, a.overviews, a.modules)
  {
    assert Updated(a.overviews, listing, fetched, {}) == a.overviews;
    assert Written(a.overviews, listing, fetched, {}) == {};
  }

  /** One run, from local copy `a` to local copy `b`. */
  ghost predicate RunOf(a: Local, snap: Snapshot, b: Local, outcome: Outcome) {
    match outcome
    case Skipped => snap.version.Some? && snap.version.value <= a.version && b == a
    case Synced =>
      && snap.version.Some? && snap.version.value > a.version && snap.listing.Some?
      && b.version == snap.version.value && b.tenantIdents == snap.listing.value
      && Progress(a, snap.listing.value, snap.fetched, snap.listing.value.Keys, b.overviews, b.modules)
    case Failed =>
      && b.version == a.version && b.tenantIdents == a.tenantIdents
      && (snap.version.None? || snap.version.value > a.version)
      && if snap.version.None? || snap.listing.None? then b == a
         else exists done, ident ::
                && Progress(a, snap.listing.value, snap.fetched, done, b.overviews, b.modules)
                && Missing(a, snap.listing.value, snap.fetched, ident)
  }

  predicate Missing(a: Local, listing: map<string, int>, fetched: Overviews, ident: string) {
    ident in listing && Stale(a.overviews, listing, ident) && ident !in fetched
  }

  function FirstMatch(modules: seq<Module>, namespace: string, name: string): Option<Module> {
    if modules == [] then None
    else if modules[0].namespace == namespace && modules[0].name == name then Some(modules[0])
    else FirstMatch(modules[1..], namespace, name)
  }

  function ModuleByName(overviews: Overviews, ident: string, namespace: string, name: string): Option<Module> {
    if ident in overviews then FirstMatch(overviews[ident].modules, namespace, name) else None
  }

  /** A look-up finds the first module that has both the namespace and the name, or none does. */
  ghost predicate Finds(modules: seq<Module>, namespace: string, name: string, found: Option<Module>) {
    match found
    case None => forall i | 0 <= i < |modules| :: !(modules[i].namespace == namespace && modules[i].name == name)
    case Some(m) =>
      exists i :: 0 <= i < |modules| && modules[i] == m && m.namespace == namespace && m.name == name
                  && forall j | 0 <= j < i :: !(modules[j].namespace == namespace && modules[j].name == name)
  }

  lemma {:induction false} FirstMatchFinds(modules: seq<Module>, namespace: string, name: string)
    ensures Finds(modules, namespace, name, FirstMatch(modules, namespace, name))
  {
    if modules != [] && !(modules[0].namespace == namespace && modules[0].name == name) {
      FirstMatchFinds(modules[1..], namespace, name);
      FindsLater(modules, namespace, name, FirstMatch(modules[1..], namespace, name));
    }
  }

  lemma FindsLater(modules: seq<Module>, namespace: string, name: string, found: Option<Module>)
    requires modules != [] && !(modules[0].namespace == namespace && modules[0].name == name)
    requires Finds(modules[1..], namespace, name, found)
    ensures Finds(modules, namespace, name, found)
  {
    var rest := modules[1..];
    assert forall i | 0 < i < |modules| :: modules[i] == rest[i - 1];
    if found.Some? {
      var i :| 0 <= i < |rest| && rest[i] == found.value
               && forall j | 0 <= j < i :: !(rest[j].namespace == namespace && rest[j].name == name);
      assert modules[i + 1] == found.value;
    }
  }

  class SyncJob {
    var version: int
    var tenantIdents: map<string, int>
    var overviews: Overviews
    var modules: Modules

    function View(): Local
      reads this
    {
      Local(version, tenantIdents, overviews, modules)
    }

    constructor ()
      ensures View() == EMPTY_LOCAL
    {
      version, tenantIdents, overviews, modules := 0, map[], map[], map[];
    }

    method IndexModules(mods: seq<Module>, ghost before: Modules, ghost written: set<Module>)
      requires Indexed(before, written, modules)
      modifies this`modules
      ensures Indexed(before, written + SetOf(mods), modules)
    {
      for i := 0 to |mods|
        invariant Indexed(before, written + SetOf(mods[..i]), modules)
      {
        IndexNext(before, written, mods, i, modules);
        modules := modules[mods[i].ref := mods[i]];
      }
      assert mods[..|mods|] == mods;
    }

    /** Bring one tenant up to date, unless it cannot be fetched. */
    method SyncTenant(ident: string, listing: map<string, int>, fetched: Overviews,
                      ghost a: Local, ghost done: set<string>)
      returns (ok: bool)
      requires Progress(a, listing, fetched, done, overviews, modules) && ident in listing && ident !in done
      modifies this`overviews, this`modules
      ensures ok ==> Progress(a, listing, fetched, done + {ident}, overviews, modules)
      ensures !ok ==> Progress(a, listing, fetched, done, overviews, modules) && Missing(a, listing, fetched, ident)
    {
      NextUpToDate(a, listing, fetched, done, overviews, ident);
      if ident in overviews && overviews[ident].version == listing[ident] {
        return true;
      }
      if ident !in fetched {
        return false;
      }
      overviews := overviews[ident := fetched[ident]];
      IndexModules(fetched[ident].modules, a.modules, Written(a.overviews, listing, fetched, done));
      ok := true;
    }

    /** Bring the tenants up to date one after the other, in any order, until one cannot be fetched. */
    method SyncTenants(listing: map<string, int>, fetched: Overviews, ghost a: Local)
      returns (ok: bool, ghost done: set<string>)
      requires a == View()
      modifies this`overviews, this`modules
      ensures Progress(a, listing, fetched, done, overviews, modules)
      ensures ok ==> done == listing.Keys
      ensures !ok ==> exists ident :: Missing(a, listing, fetched, ident)
    {
      NoProgress(a, listing, fetched);
      var todo := listing.Keys;
      done := {};
      while todo != {}
        invariant todo <= listing.Keys && done == listing.Keys - todo
        invariant Progress(a, listing, fetched, done, overviews, modules)
        decreases |todo|
      {
        var ident :| ident in todo;
        ok := SyncTenant(ident, listing, fetched, a, done);
        if !ok {
          return false, done;
        }
        todo := todo - {ident};
        done := done + {ident};
      }
      ok := true;
    }

    method Run(snap: Snapshot) returns (outcome: Outcome)
      modifies this
      ensures RunOf(old(View()), snap, View(), outcome)
    {
      if snap.version == None {
        return Failed;
      }
      if snap.version.value == version {
        return Skipped;
      }
      if snap.version.value < version {
        return Skipped;
      }
      if snap.listing == None {
        return Failed;
      }
      ghost var done;
      var ok;
      ok, done := SyncTenants(snap.listing.value, snap.fetched, View());
      if !ok {
        return Failed;
      }
      version := snap.version.value;
      tenantIdents := snap.listing.value;
      outcome := Synced;
    }

    method GetModuleByName(ident: string, namespace: string, name: string) returns (mod: Option<Module>)
      ensures mod == ModuleByName(overviews, ident, namespace, name)
      ensures if ident in overviews then Finds(overviews[ident].modules, namespace, name, mod) else mod == None
    {
      if ident !in overviews {
        return None;
      }
      var mods := overviews[ident].modules;
      FirstMatchFinds(mods, namespace, name);
      mod := None;
      var i := 0;
      while i < |mods|
        invariant 0 <= i <= |mods| && FirstMatch(mods, namespace, name) == FirstMatch(mods[i..], namespace, name)
      {
        assert mods[i..][1..] == mods[i + 1..];
        if mods[i].namespace == namespace && mods[i].name == name {
          return Some(mods[i]);
        }
        i := i + 1;
      }
    }

    /** A reference that is not known finds the zero module. */
    method GetModuleByRef(ref: string) returns (mod: Module)
      ensures mod == if ref in modules then modules[ref] else Module("", "", "", "")
    {
      mod := if ref in modules then modules[ref] else Module("", "", "", "");
    }
  }

  // What the source holds: a tenant's version determines its overview, a reference its module.

  ghost predicate World(content: (string, int) -> Overview, byRef: string -> Module) {
    forall ident, v :: content(ident, v).version == v
                       && forall m | m in content(ident, v).modules :: byRef(m.ref) == m
  }

  /** The overviews fetched during a run are of the versions listed. */
  ghost predicate Faithful(snap: Snapshot, content: (string, int) -> Overview) {
    snap.listing.Some? ==>
      forall ident | ident in snap.listing.value && ident in snap.fetched ::
        snap.fetched[ident] == content(ident, snap.listing.value[ident])
  }

  /** Every local overview is one the source holds, and all its modules are found by reference. */
  ghost predicate Mirrors(a: Local, content: (string, int) -> Overview, byRef: string -> Module) {
    && (forall ident | ident in a.overviews :: a.overviews[ident] == content(ident, a.overviews[ident].version))
    && (forall ident, m | ident in a.overviews && m in a.overviews[ident].modules :: m.ref in a.modules)
    && (forall ref | ref in a.modules :: a.modules[ref] == byRef(ref))
  }

  lemma WrittenByRef(a: Local, listing: map<string, int>, fetched: Overviews, done: set<string>,
                     content: (string, int) -> Overview, byRef: string -> Module, m: Module)
    requires World(content, byRef)
    requires forall ident | ident in listing && ident in fetched :: fetched[ident] == content(ident, listing[ident])
    requires m in Written(a.overviews, listing, fetched, done)
    ensures byRef(m.ref) == m
  {
    var ident :| ident in done && ident in listing && ident in fetched && m in fetched[ident].modules;
    assert fetched[ident] == content(ident, listing[ident]);
    assert content(ident, listing[ident]).version == listing[ident];
  }

  lemma IndexMirrors(before: Modules, written: set<Module>, after: Modules, byRef: string -> Module)
    requires Indexed(before, written, after) && forall ref | ref in before :: before[ref] == byRef(ref)
    requires forall m | m in written :: byRef(m.ref) == m
    ensures forall ref | ref in after :: after[ref] == byRef(ref)
  {
  }

  /** Each overview is as listed, if its tenant was brought up to date, and else as before. */
  lemma OverviewsMirror(a: Local, listing: map<string, int>, fetched: Overviews, done: set<string>, ident: string,
                        content: (string, int) -> Overview, byRef: string -> Module)
    requires World(content, byRef) && Mirrors(a, content, byRef) && done <= listing.Keys
    requires forall i | i in listing && i in fetched :: fetched[i] == content(i, listing[i])
    requires forall i | i in done && Stale(a.overviews, listing, i) :: i in fetched
    ensures var b := Updated(a.overviews, listing, fetched, done);
            && (ident in done ==> ident in b && b[ident] == content(ident, listing[ident]))
            && (ident in b && ident !in done ==> ident in a.overviews && b[ident] == a.overviews[ident])
            && (ident in b ==> b[ident] == content(ident, b[ident].version))
            && (ident in a.overviews ==> ident in b)
            && (ident in b && (ident !in a.overviews || b[ident] != a.overviews[ident]) ==>
                  ident in done && ident in fetched && Stale(a.overviews, listing, ident) && b[ident] == fetched[ident])
  {
    if ident in done && Stale(a.overviews, listing, ident) {
      assert content(ident, listing[ident]).version == listing[ident];
    }
  }

  lemma ProgressMirrors(a: Local, listing: map<string, int>, fetched: Overviews, done: set<string>, b: Local,
                        content: (string, int) -> Overview, byRef: string -> Module)
    requires World(content, byRef) && Mirrors(a, content, byRef)
    requires forall ident | ident in listing && ident in fetched :: fetched[ident] == content(ident, listing[ident])
    requires Progress(a, listing, fetched, done, b.overviews, b.modules)
    ensures Mirrors(b, content, byRef)
    ensures forall ident | ident in done :: ident in b.overviews && b.overviews[ident] == content(ident, listing[ident])
    ensures forall ident | ident in b.overviews && ident !in done ::
              ident in a.overviews && b.overviews[ident] == a.overviews[ident]
    ensures a.overviews.Keys <= b.overviews.Keys && a.modules.Keys <= b.modules.Keys
  {
    var written := Written(a.overviews, listing, fetched, done);
    forall m | m in written ensures byRef(m.ref) == m {
      WrittenByRef(a, listing, fetched, done, content, byRef, m);
    }
    IndexMirrors(a.modules, written, b.modules, byRef);
    forall ident {
      OverviewsMirror(a, listing, fetched, done, ident, content, byRef);
    }
    forall ident, m | ident in b.overviews && m in b.overviews[ident].modules ensures m.ref in b.modules {
      if ident !in a.overviews || b.overviews[ident] != a.overviews[ident] {
        assert m in written;
      }
    }
  }

  /** The runs of a syncer that starts empty. */
  ghost predicate History(states: seq<Local>, snaps: seq<Snapshot>, outcomes: seq<Outcome>,
                          content: (string, int) -> Overview)
  {
    && |states| == |snaps| + 1 && |outcomes| == |snaps| && states[0] == EMPTY_LOCAL
    && forall i | 0 <= i < |snaps| ::
         Faithful(snaps[i], content) && RunOf(states[i], snaps[i], states[i + 1], outcomes[i])
  }

  /** One run keeps what is mirrored, whether it completes or fails part-way. */
  lemma RunMirrors(a: Local, snap: Snapshot, b: Local, outcome: Outcome, content: (string, int) -> Overview,
                   byRef: string -> Module)
    requires World(content, byRef) && Faithful(snap, content) && RunOf(a, snap, b, outcome)
    requires Mirrors(a, content, byRef)
    ensures Mirrors(b, content, byRef)
    ensures a.version <= b.version && a.overviews.Keys <= b.overviews.Keys && a.modules.Keys <= b.modules.Keys
  {
    if outcome.Synced? {
      ProgressMirrors(a, snap.listing.value, snap.fetched, snap.listing.value.Keys, b, content, byRef);
    } else if outcome.Failed? && snap.version.Some? && snap.listing.Some? {
      var done, ident :| Progress(a, snap.listing.value, snap.fetched, done, b.overviews, b.modules)
                         && Missing(a, snap.listing.value, snap.fetched, ident);
      ProgressMirrors(a, snap.listing.value, snap.fetched, done, b, content, byRef);
    }
  }

  /** In every history the local copy only ever holds what the source holds, with every module
      indexed, also after runs that failed part-way; nothing is evicted, and the version never falls. */
  lemma {:induction false} HistoryMirrors(states: seq<Local>, snaps: seq<Snapshot>, outcomes: seq<Outcome>,
                                          content: (string, int) -> Overview, byRef: string -> Module, k: nat)
    requires World(content, byRef) && History(states, snaps, outcomes, content) && k <= |snaps|
    ensures Mirrors(states[k], content, byRef)
    ensures forall i | 0 <= i < k :: states[i].version <= states[i + 1].version
    ensures forall i | 0 <= i < k :: states[i].overviews.Keys <= states[i + 1].overviews.Keys
                                     && states[i].modules.Keys <= states[i + 1].modules.Keys
  {
    if k > 0 {
      HistoryMirrors(states, snaps, outcomes, content, byRef, k - 1);
      RunMirrors(states[k - 1], snaps[k - 1], states[k], outcomes[k - 1], content, byRef);
    }
  }

  /** A look-up by name in any listed tenant finds the source's first match, and every module of a
      listed tenant is found by its reference. */
  ghost predicate AgreesWith(a: Local, listing: map<string, int>, content: (string, int) -> Overview) {
    && (forall ident, namespace, name | ident in listing ::
          Finds(content(ident, listing[ident]).modules, namespace, name,
                ModuleByName(a.overviews, ident, namespace, name)))
    && (forall ident, m | ident in listing && m in content(ident, listing[ident]).modules ::
          m.ref in a.modules && a.modules[m.ref] == m)
  }

  /** After a run that completed a sync the local copy agrees with what was listed. */
  lemma SyncedAgreesWithSource(states: seq<Local>, snaps: seq<Snapshot>, outcomes: seq<Outcome>,
                               content: (string, int) -> Overview, byRef: string -> Module, k: nat)
    requires World(content, byRef) && History(states, snaps, outcomes, content) && k < |snaps| && outcomes[k].Synced?
    ensures snaps[k].listing.Some? && states[k + 1].version == snaps[k].version.value
    ensures AgreesWith(states[k + 1], snaps[k].listing.value, content)
  {
    HistoryMirrors(states, snaps, outcomes, content, byRef, k);
    var a, snap, b := states[k], snaps[k], states[k + 1];
    assert Faithful(snap, content) && RunOf(a, snap, b, outcomes[k]);
    ProgressMirrors(a, snap.listing.value, snap.fetched, snap.listing.value.Keys, b, content, byRef);
    forall ident, namespace, name | ident in snap.listing.value
      ensures Finds(content(ident, snap.listing.value[ident]).modules, namespace, name,
                    ModuleByName(b.overviews, ident, namespace, name))
    {
      FirstMatchFinds(content(ident, snap.listing.value[ident]).modules, namespace, name);
    }
  }

  /** The source lists the same tenants whenever it answers with the same version. */
  ghost predicate Determined(snaps: seq<Snapshot>, listingAt: int -> map<string, int>) {
    forall i | 0 <= i < |snaps| && snaps[i].version.Some? && snaps[i].listing.Some? ::
      snaps[i].listing.value == listingAt(snaps[i].version.value)
  }

  /** In every history, after runs that synced, skipped or failed: while the local version is above 0
      and no answered version was higher, the local copy agrees with the source at that version. */
  lemma {:induction false} CurrentAgreesWithSource(states: seq<Local>, snaps: seq<Snapshot>, outcomes: seq<Outcome>,
      content: (string, int) -> Overview, byRef: string -> Module, listingAt: int -> map<string, int>, k: nat)
    requires World(content, byRef) && History(states, snaps, outcomes, content) && Determined(snaps, listingAt)
    requires k <= |snaps| && states[k].version > 0
    requires forall i | 0 <= i < k && snaps[i].version.Some? :: snaps[i].version.value <= states[k].version
    ensures AgreesWith(states[k], listingAt(states[k].version), content)
  {
    assert RunOf(states[k - 1], snaps[k - 1], states[k], outcomes[k - 1]);
    if outcomes[k - 1].Synced? {
      SyncedAgreesWithSource(states, snaps, outcomes, content, byRef, k - 1);
    } else {
      assert states[k] == states[k - 1];
      CurrentAgreesWithSource(states, snaps, outcomes, content, byRef, listingAt, k - 1);
    }
  }

  /** The source answers with a higher version than the local one, lists its tenants, and lets every
      stale one of them be fetched. */
  predicate CanSync(a: Local, snap: Snapshot) {
    && snap.version.Some? && snap.version.value > a.version && snap.listing.Some?
    && forall ident | ident in snap.listing.value ::
         || (ident in a.overviews && a.overviews[ident].version == snap.listing.value[ident])
         || ident in snap.fetched
  }

  /** A run syncs exactly then, and skips exactly if the version answered is not higher. */
  lemma SyncsIff(a: Local, snap: Snapshot, b: Local, outcome: Outcome)
    requires RunOf(a, snap, b, outcome)
    ensures outcome.Synced? <==> CanSync(a, snap)
    ensures outcome.Skipped? <==> snap.version.Some? && snap.version.value <= a.version
  {
  }

  /** A run that fails part-way keeps the version, and leaves each overview wholly as it was or
      wholly as listed. */
  lemma FailedRunKeepsWholeOverviews(states: seq<Local>, snaps: seq<Snapshot>, outcomes: seq<Outcome>,
                                     content: (string, int) -> Overview, byRef: string -> Module, k: nat, ident: string)
    requires World(content, byRef) && History(states, snaps, outcomes, content) && k < |snaps| && outcomes[k].Failed?
    requires ident in states[k + 1].overviews
    ensures states[k + 1].version == states[k].version && states[k + 1].tenantIdents == states[k].tenantIdents
    ensures || (ident in states[k].overviews && states[k + 1].overviews[ident] == states[k].overviews[ident])
            || (snaps[k].listing.Some? && ident in snaps[k].listing.value
                && states[k + 1].overviews[ident] == content(ident, snaps[k].listing.value[ident]))
  {
  }

  /** The run can be the first to sync: versions of 0 and below never are enough. */
  predicate CanSyncFirst(a: Local, snap: Snapshot) {
    CanSync(a.(version := 0), snap)
  }

  /** In every history nothing has been synced so far if and only if no answered version above 0 came
      with a listing of which every stale tenant could be fetched. */
  lemma {:induction false} NothingSyncedIff(states: seq<Local>, snaps: seq<Snapshot>, outcomes: seq<Outcome>,
                                            content: (string, int) -> Overview, k: nat)
    requires History(states, snaps, outcomes, content) && k <= |snaps|
    ensures (forall i | 0 <= i < k :: !outcomes[i].Synced?)
       <==> (forall i | 0 <= i < k :: !CanSyncFirst(states[i], snaps[i]))
    ensures (forall i | 0 <= i < k :: !outcomes[i].Synced?) ==>
              states[k].version == 0 && states[k].tenantIdents == map[]
  {
    if k > 0 {
      NothingSyncedIff(states, snaps, outcomes, content, k - 1);
      SyncsIff(states[k - 1], snaps[k - 1], states[k], outcomes[k - 1]);
      assert states[k - 1].version == 0 ==> states[k - 1].(version := 0) == states[k - 1];
    }
  }

  /** At versions of 0 and below not even an overview is fetched. */
  lemma {:induction false} NothingSyncedAtZero(states: seq<Local>, snaps: seq<Snapshot>, outcomes: seq<Outcome>,
                                               content: (string, int) -> Overview, k: nat)
    requires History(states, snaps, outcomes, content) && k <= |snaps|
    requires forall i | 0 <= i < k :: snaps[i].version.Some? ==> snaps[i].version.value <= 0
    ensures states[k] == EMPTY_LOCAL
  {
    if k > 0 {
      NothingSyncedAtZero(states, snaps, outcomes, content, k - 1);
      assert RunOf(states[k - 1], snaps[k - 1], states[k], outcomes[k - 1]);
    }
  }
}
