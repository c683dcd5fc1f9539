/**
 * The single-file import provider: it reads the realm bundles of a file
 * once, caches them, and imports them in one transaction, the
 * administration realm first, then the others in file order, then sets up
 * the management client of every realm left without one.
 */
module BundleReader {
  import opened Wrappers
  import opened Keycloak
  import opened Representations
  import opened Directory
  import ConflictImport

  /**
   * A token of the JSON stream as the streaming parser reports it. An object
   * at the cursor is read whole into a realm representation, so it is one
   * token here.
   */
  datatype Token = StartArray | EndArray | Object(rep: RealmRep) | Scalar

  /** The objects at the front of a token sequence, up to the first token that is not an object. */
  function LeadingObjects(t: seq<Token>): (r: seq<RealmRep>)
    ensures |r| <= |t|
    ensures forall i :: 0 <= i < |r| ==> t[i] == Object(r[i])
    ensures |r| < |t| ==> !t[|r|].Object?
  {
    if |t| > 0 && t[0].Object? then [t[0].rep] + LeadingObjects(t[1..]) else []
  }

  /**
   * What `getObjectsFromStream` returns: a leading array gives its leading
   * objects, a leading object gives itself, anything else (an empty stream
   * included) gives nothing.
   */
  function Objects(t: seq<Token>): seq<RealmRep> {
    if |t| == 0 then []
    else
      match t[0]
      case StartArray => LeadingObjects(t[1..])
      case Object(rep) => [rep]
      case _ => []
  }

  /** Nothing is invented: every realm read was an object token of the stream. */
  lemma ObjectsFromStream(t: seq<Token>)
    ensures |Objects(t)| <= |t|
    ensures forall x :: x in Objects(t) ==> Object(x) in t
  {
    if |t| > 0 && t[0] == StartArray {
      var r := LeadingObjects(t[1..]);
      forall x | x in r
        ensures Object(x) in t
      {
        var i :| 0 <= i < |r| && r[i] == x;
        assert t[i + 1] == Object(x);
      }
    }
  }

  /** A leading array yields its consecutive objects in order and stops at the first token that is not an object. */
  lemma ArrayObjects(t: seq<Token>)
    requires |t| > 0 && t[0] == StartArray
    ensures var r := Objects(t);
      && |r| < |t|
      && (forall i :: 0 <= i < |r| ==> t[i + 1] == Object(r[i]))
      && (|r| + 1 < |t| ==> !t[|r| + 1].Object?)
  {
    var r := LeadingObjects(t[1..]);
    assert forall i :: 0 <= i < |r| ==> t[1..][i] == t[i + 1];
  }

  /** A leading object yields exactly that one representation; any other start yields none. */
  lemma SingleOrNothing(t: seq<Token>)
    ensures |t| > 0 && t[0].Object? ==> Objects(t) == [t[0].rep]
    ensures |t| == 0 || t[0] == EndArray || t[0] == Scalar ==> Objects(t) == []
  {
  }

  /** Reading the object under the cursor and moving on. */
  lemma LeadingObjectsStep(t: seq<Token>, cursor: nat)
    requires cursor < |t| && t[cursor].Object?
    ensures LeadingObjects(t[cursor..]) == [t[cursor].rep] + LeadingObjects(t[cursor + 1..])
  {
    assert t[cursor..][1..] == t[cursor + 1..];
  }

  /** The cursor loop of `getObjectsFromStream`. */
  method GetObjectsFromStream(t: seq<Token>) returns (result: seq<RealmRep>)
    ensures result == Objects(t)
  {
    result := [];
    if |t| == 0 {
      return;
    }
    if t[0] == StartArray {
      result := ReadArrayObjects(t);
    } else if t[0].Object? {
      result := [t[0].rep];
    }
  }

  /** The loop over the objects of a leading array: it reads objects until the first token that is not one. */
  method ReadArrayObjects(t: seq<Token>) returns (result: seq<RealmRep>)
    requires |t| > 0
    ensures result == LeadingObjects(t[1..])
  {
    result := [];
    var cursor := 1;
    while cursor < |t| && t[cursor].Object?
      invariant 1 <= cursor <= |t|
      invariant result + LeadingObjects(t[cursor..]) == LeadingObjects(t[1..])
    {
      LeadingObjectsStep(t, cursor);
      result := result + [t[cursor].rep];
      cursor := cursor + 1;
    }
    assert LeadingObjects(t[cursor..]) == [];
  }

  /** The first representation named after the administration realm (`getMasterRealm`). */
  function FirstNamed(reps: seq<RealmRep>, adminRealm: string): (r: Option<nat>)
    ensures r.Some? ==> r.value < |reps| && reps[r.value].realm == adminRealm
    ensures r.Some? ==> forall k :: 0 <= k < r.value ==> reps[k].realm != adminRealm
    ensures r.None? ==> forall k :: 0 <= k < |reps| ==> reps[k].realm != adminRealm
  {
    if |reps| == 0 then None
    else if reps[0].realm == adminRealm then Some(0)
    else
      match FirstNamed(reps[1..], adminRealm)
      case None => None
      case Some(k) => Some(k + 1)
  }

  /** Every position other than the master's, in file order, among the first `n`. */
  function Others(n: nat, master: Option<nat>): (r: seq<nat>)
    ensures forall i :: 0 <= i < |r| ==> r[i] < n && Some(r[i]) != master
    ensures forall k :: 0 <= k < n && Some(k) != master ==> k in r
    ensures forall i, j :: 0 <= i < j < |r| ==> r[i] < r[j]
  {
    if n == 0 then []
    else if Some(n - 1) == master then Others(n - 1, master)
    else Others(n - 1, master) + [n - 1]
  }

  /** The import order: the master first, if present, then every other position in file order. */
  function ImportOrder(n: nat, master: Option<nat>): seq<nat> {
    (if master.Some? then [master.value] else []) + Others(n, master)
  }

  /** The import order lists every bundle exactly once, the master first and the others in file order. */
  lemma ImportOrderProperties(n: nat, master: Option<nat>)
    requires master.Some? ==> master.value < n
    ensures var order := ImportOrder(n, master);
      && (forall k :: 0 <= k < n <==> k in order)
      && (forall i, j :: 0 <= i < j < |order| ==> order[i] != order[j])
      && (master.Some? ==> order[0] == master.value)
      && (var rest := if master.Some? then order[1..] else order;
          forall i, j :: 0 <= i < j < |rest| ==> rest[i] < rest[j])
  {
    if master.Some? {
      MasterFirstOrder(n, master.value);
    } else {
      assert ImportOrder(n, master) == Others(n, master);
    }
  }

  /** The import order with a master: the master, then all the other positions once each. */
  lemma MasterFirstOrder(n: nat, m: nat)
    requires m < n
    ensures var order := ImportOrder(n, Some(m));
      && order[0] == m
      && order[1..] == Others(n, Some(m))
      && (forall k :: 0 <= k < n <==> k in order)
      && (forall i, j :: 0 <= i < j < |order| ==> order[i] != order[j])
  {
    var order := ImportOrder(n, Some(m));
    var others := Others(n, Some(m));
    assert order[1..] == others;
    forall k | 0 <= k < n
      ensures k in order
    {
      if k != m {
        assert k in others;
      }
    }
    forall i, j | 0 <= i < j < |order|
      ensures order[i] != order[j]
    {
      if i == 0 {
        assert order[j] == others[j - 1];
      }
    }
  }

  /** The listing after importing the bundles at the first `n` positions of `order`, one after the other. */
  function Sequence(realms: seq<Realm>, reps: seq<RealmRep>, order: seq<nat>, strategy: Option<Strategy>,
                    adminRealm: string, n: nat): Result<seq<Realm>, Error>
    requires n <= |order|
    requires forall i :: 0 <= i < |order| ==> order[i] < |reps|
  {
    if n == 0 then Success(realms)
    else
      match Sequence(realms, reps, order, strategy, adminRealm, n - 1)
      case Failure(e) => Failure(e)
      case Success(current) =>
        match ConflictImport.Outcome(current, reps[order[n - 1]], strategy, adminRealm)
        case Failure(e) => Failure(e)
        case Success(None) => Success(current)
        case Success(Some(next)) => Success(next)
  }

  /** One more bundle. */
  lemma SequenceStep(realms: seq<Realm>, reps: seq<RealmRep>, order: seq<nat>,
                     strategy: Option<Strategy>, adminRealm: string, n: nat, current: seq<Realm>)
    requires n < |order|
    requires forall i :: 0 <= i < |order| ==> order[i] < |reps|
    requires Sequence(realms, reps, order, strategy, adminRealm, n) == Success(current)
    ensures var o := ConflictImport.Outcome(current, reps[order[n]], strategy, adminRealm);
      && (o.Failure? ==> Sequence(realms, reps, order, strategy, adminRealm, n + 1) == Failure(o.error))
      && (o.Success? && o.value.None? ==> Sequence(realms, reps, order, strategy, adminRealm, n + 1) == Success(current))
      && (o.Success? && o.value.Some? ==> Sequence(realms, reps, order, strategy, adminRealm, n + 1) == Success(o.value.value))
  {
  }

  /** Once a bundle fails, the sequence's result stays that failure. */
  lemma {:induction false} SequenceFailureSticks(realms: seq<Realm>, reps: seq<RealmRep>, order: seq<nat>,
                                                 strategy: Option<Strategy>, adminRealm: string, n: nat, n': nat)
    requires n <= n' <= |order|
    requires forall i :: 0 <= i < |order| ==> order[i] < |reps|
    requires Sequence(realms, reps, order, strategy, adminRealm, n).Failure?
    ensures Sequence(realms, reps, order, strategy, adminRealm, n') == Sequence(realms, reps, order, strategy, adminRealm, n)
    decreases n' - n
  {
    if n < n' {
      SequenceFailureSticks(realms, reps, order, strategy, adminRealm, n, n' - 1);
    }
  }

  /**
   * The post-pass: every realm without a management client gets one; the
   * others are left as they were.
   */
  function PostPass(realms: seq<Realm>): (r: seq<Realm>)
    ensures |r| == |realms|
    ensures forall i :: 0 <= i < |r| ==> r[i].masterAdminClient.Some?
    ensures forall i :: 0 <= i < |r| ==> r[i] == realms[i].(masterAdminClient := r[i].masterAdminClient)
    ensures forall i :: 0 <= i < |r| && realms[i].masterAdminClient.Some? ==> r[i] == realms[i]
    ensures forall i :: 0 <= i < |r| && realms[i].masterAdminClient.None? ==>
              r[i].masterAdminClient == Some(AdminClientName(realms[i].name))
  {
    seq(|realms|, i requires 0 <= i < |realms| =>
      if realms[i].masterAdminClient.None? then realms[i].(masterAdminClient := Some(AdminClientName(realms[i].name)))
      else realms[i])
  }

  /** Running the post-pass twice changes nothing more. */
  lemma PostPassIdempotent(realms: seq<Realm>)
    ensures PostPass(PostPass(realms)) == PostPass(realms)
  {
    var once := PostPass(realms);
    assert forall i :: 0 <= i < |once| ==> PostPass(once)[i] == once[i];
  }

  /**
   * What `importModel` does to the listing: every bundle of the file in
   * import order, then the post-pass when the file holds the administration
   * realm; one failure fails the whole transaction.
   */
  function ModelOutcome(realms: seq<Realm>, file: seq<Token>, strategy: Option<Strategy>, adminRealm: string)
    : (r: Result<seq<Realm>, Error>)
    ensures r.Success? && FirstNamed(Objects(file), adminRealm).Some? ==>
              forall i :: 0 <= i < |r.value| ==> r.value[i].masterAdminClient.Some?
    ensures Objects(file) == [] ==> r == Success(realms)
  {
    var reps := Objects(file);
    var master := FirstNamed(reps, adminRealm);
    var order := ImportOrder(|reps|, master);
    ImportOrderProperties(|reps|, master);
    match Sequence(realms, reps, order, strategy, adminRealm, |order|)
    case Failure(e) => Failure(e)
    case Success(imported) => Success(if master.Some? then PostPass(imported) else imported)
  }

  /** The post-pass loop over the realms of the store. */
  method SetUpMissingClients(store: Store)
    modifies store`realms
    ensures store.realms == PostPass(old(store.realms))
  {
    ghost var realms0 := store.realms;
    var i := 0;
    while i < |store.realms|
      invariant |store.realms| == |realms0|
      invariant 0 <= i <= |realms0|
      invariant forall k :: 0 <= k < i ==> store.realms[k] == PostPass(realms0)[k]
      invariant forall k :: i <= k < |realms0| ==> store.realms[k] == realms0[k]
    {
      if store.realms[i].masterAdminClient.None? {
        store.SetupMasterAdminManagement(i);
      }
      i := i + 1;
    }
    assert store.realms == PostPass(realms0);
  }

  /**
   * The import job: every bundle in the given order, in one transaction
   * that rolls back on the first failure.
   */
  method ImportAll(store: Store, reps: seq<RealmRep>, order: seq<nat>, strategy: Option<Strategy>, adminRealm: string)
    returns (r: Result<(), Error>)
    requires forall i :: 0 <= i < |order| ==> order[i] < |reps|
    modifies store`realms
    ensures var s := Sequence(old(store.realms), reps, order, strategy, adminRealm, |order|);
      && (r.Failure? <==> s.Failure?)
      && (r.Failure? ==> r.error == s.error && store.realms == old(store.realms))
      && (r.Success? ==> store.realms == s.value)
  {
    var snapshot := store.realms;
    var n := 0;
    r := Success(());
    while n < |order| && r.Success?
      invariant 0 <= n <= |order|
      invariant r.Success? ==> Sequence(snapshot, reps, order, strategy, adminRealm, n) == Success(store.realms)
      invariant r.Failure? ==> Sequence(snapshot, reps, order, strategy, adminRealm, n) == Failure(r.error)
    {
      r := ImportNext(store, snapshot, reps, order, strategy, adminRealm, n);
      n := n + 1;
    }
    if r.Failure? {
      SequenceFailureSticks(snapshot, reps, order, strategy, adminRealm, n, |order|);
      store.realms := snapshot;
    }
  }

  /** One iteration of the import job: the bundle at position `n` of the order. */
  method ImportNext(store: Store, snapshot: seq<Realm>, reps: seq<RealmRep>, order: seq<nat>,
                    strategy: Option<Strategy>, adminRealm: string, n: nat) returns (r: Result<(), Error>)
    requires n < |order|
    requires forall i :: 0 <= i < |order| ==> order[i] < |reps|
    requires Sequence(snapshot, reps, order, strategy, adminRealm, n) == Success(store.realms)
    modifies store`realms
    ensures r.Failure? ==> Sequence(snapshot, reps, order, strategy, adminRealm, n + 1) == Failure(r.error)
    ensures r.Success? ==> Sequence(snapshot, reps, order, strategy, adminRealm, n + 1) == Success(store.realms)
  {
    SequenceStep(snapshot, reps, order, strategy, adminRealm, n, store.realms);
    var imported := ConflictImport.ImportRealm(store, reps[order[n]], strategy, adminRealm);
    if imported.Failure? {
      return Failure(imported.error);
    }
    r := Success(());
  }

  class SingleFileImportProvider {
    const file: seq<Token>
    /** The cached representations, read from the file at most once. */
    var realmReps: Option<seq<RealmRep>>
    /** How many times the file was parsed. */
    ghost var parses: nat

    ghost predicate Valid()
      reads this
    {
      && (realmReps.None? ==> parses == 0)
      && (realmReps.Some? ==> realmReps.value == Objects(file) && parses == 1)
    }

    constructor (file: seq<Token>)
      ensures this.file == file && realmReps.None? && parses == 0
      ensures Valid()
    {
      this.file := file;
      realmReps := None;
      parses := 0;
    }

    /** `checkRealmReps`: parse the file unless its representations are cached. */
    method CheckRealmReps()
      requires Valid()
      modifies this`realmReps, this`parses
      ensures Valid()
      ensures realmReps == Some(Objects(file)) && parses == 1
      ensures old(realmReps).Some? ==> realmReps == old(realmReps) && parses == old(parses)
    {
      if realmReps.None? {
        var reps := GetObjectsFromStream(file);
        realmReps := Some(reps);
        parses := parses + 1;
      }
    }

    /** `getMasterRealm`: the position of the first representation named after the administration realm. */
    method GetMasterRealm(adminRealm: string) returns (master: Option<nat>)
      requires Valid()
      modifies this`realmReps, this`parses
      ensures Valid() && realmReps == Some(Objects(file)) && parses == 1
      ensures master == FirstNamed(Objects(file), adminRealm)
    {
      CheckRealmReps();
      master := FirstNamed(realmReps.value, adminRealm);
    }

    /** `isMasterRealmExported`: whether the file holds a representation of the administration realm. */
    method IsMasterRealmExported(adminRealm: string) returns (exported: bool)
      requires Valid()
      modifies this`realmReps, this`parses
      ensures Valid() && realmReps == Some(Objects(file)) && parses == 1
      ensures exported <==> exists k :: 0 <= k < |Objects(file)| && Objects(file)[k].realm == adminRealm
    {
      var master := GetMasterRealm(adminRealm);
      exported := master.Some?;
    }

    /**
     * `importModel`: the whole file in one transaction. On a failure the
     * transaction rolls back and the store is as it was.
     */
    method ImportModel(store: Store, strategy: Option<Strategy>, adminRealm: string) returns (r: Result<(), Error>)
      requires Valid()
      modifies this`realmReps, this`parses, store`realms
      ensures Valid() && realmReps == Some(Objects(file)) && parses == 1
      ensures var o := ModelOutcome(old(store.realms), file, strategy, adminRealm);
        && (r.Failure? <==> o.Failure?)
        && (r.Failure? ==> r.error == o.error && store.realms == old(store.realms))
        && (r.Success? ==> store.realms == o.value)
    {
      var master := GetMasterRealm(adminRealm);
      var reps := realmReps.value;
      var order := ImportOrder(|reps|, master);
      ImportOrderProperties(|reps|, master);
      r := ImportAll(store, reps, order, strategy, adminRealm);
      if r.Success? && master.Some? {
        SetUpMissingClients(store);
      }
    }

    /** `importRealm(realmName)`: the name is ignored and the whole file is imported. */
    method ImportRealm(realmName: string, store: Store, strategy: Option<Strategy>, adminRealm: string)
      returns (r: Result<(), Error>)
      requires Valid()
      modifies this`realmReps, this`parses, store`realms
      ensures Valid() && realmReps == Some(Objects(file)) && parses == 1
      ensures var o := ModelOutcome(old(store.realms), file, strategy, adminRealm);
        && (r.Failure? <==> o.Failure?)
        && (r.Failure? ==> r.error == o.error && store.realms == old(store.realms))
        && (r.Success? ==> store.realms == o.value)
    {
      r := ImportModel(store, strategy, adminRealm);
    }
  }
}
