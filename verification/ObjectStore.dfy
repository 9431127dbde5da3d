/** Tenant source objects: one row and one sealed file per object, under per-project quotas. */
module ObjectStore {
  import opened Prelude
  import opened Protocol
  import opened Tables

  newtype Byte = x: int | 0 <= x < 256
  type Bytes = seq<Byte>

  const SHA256 := "sha256"

  /** A digest value: the hash of some content, taken as injective, or a string that hashes nothing. */
  datatype DigestValue = Sha256(content: Bytes) | NoHash(value: string)
  datatype Identity = Identity(algorithm: string, value: DigestValue)

  datatype ObjectError =
    | ContentIdentityMismatch | ObjectQuotaExceeded | ProjectObjectQuotaExceeded | ProjectByteQuotaExceeded
    | ObjectProjectDeleted | ObjectUnavailable | IntegrityFailure | Io

  datatype ObjectQuota = ObjectQuota(maxObjects: nat, maxBytes: nat, maxObjectBytes: nat)

  datatype ObjectKey = ObjectKey(project: Project, id: DigestValue)
  datatype ObjectRef = ObjectRef(project: Project, id: DigestValue, identity: Identity) {
    function Key(): ObjectKey { ObjectKey(project, id) }
  }
  datatype Row = Row(identity: Identity, byteLen: nat)

  /** An encrypted file: it opens only as the object it was sealed for. */
  datatype Envelope = Envelope(sealedFor: ObjectRef, content: Bytes)

  datatype Input = Input(identity: Identity, content: Bytes)
  datatype PutOutcome = Stored | Reused
  datatype PutResult = PutResult(ref: ObjectRef, outcome: PutOutcome)

  /** The object table, the files beside it, and the deleted projects. */
  datatype Objects = Objects(rows: map<ObjectKey, Row>, files: map<ObjectKey, Envelope>, tombstones: set<Project>)

  function RefOf(project: Project, o: Input): ObjectRef { ObjectRef(project, o.identity.value, o.identity) }
  function KeyOf(project: Project, o: Input): ObjectKey { ObjectKey(project, o.identity.value) }

  predicate Verifies(identity: Identity, content: Bytes) { identity == Identity(SHA256, Sha256(content)) }

  // ---------------------------------------------------------------- reading

  function Decrypt(files: map<ObjectKey, Envelope>, ref: ObjectRef): Result<Bytes, ObjectError>
  {
    if ref.Key() !in files then Err(Io)
    else
      var file := files[ref.Key()];
      if file.sealedFor != ref then Err(IntegrityFailure)
      else if !Verifies(ref.identity, file.content) then Err(ContentIdentityMismatch)
      else Ok(file.content)
  }

  function ReadVerified(t: Objects, ref: ObjectRef): Result<Bytes, ObjectError>
  {
    if ref.Key() !in t.rows || t.rows[ref.Key()].identity != ref.identity then Err(ObjectUnavailable)
    else Decrypt(t.files, ref)
  }

  /** A read succeeds exactly when the object has a row under that identity and its file was sealed for this
      very object and holds the bytes its digest names. */
  lemma ReadSucceedsIff(t: Objects, ref: ObjectRef, content: Bytes)
    ensures ReadVerified(t, ref) == Ok(content) <==>
              && ref.Key() in t.rows && t.rows[ref.Key()].identity == ref.identity
              && ref.Key() in t.files && t.files[ref.Key()] == Envelope(ref, content)
              && ref.identity == Identity("sha256", Sha256(content))
  {
  }

  // ---------------------------------------------------------------- one object

  function CountWeight(p: Project): (ObjectKey, Row) -> nat
  {
    (k: ObjectKey, r: Row) => if k.project == p then 1 else 0
  }
  function ByteWeight(p: Project): (ObjectKey, Row) -> nat { (k: ObjectKey, r: Row) => BytesIn(p, k, r) }
  function BytesIn(p: Project, k: ObjectKey, r: Row): nat { if k.project == p then r.byteLen else 0 }

  function CheckInput(quota: ObjectQuota, o: Input): Option<ObjectError>
  {
    if !Verifies(o.identity, o.content) then Some(ContentIdentityMismatch)
    else if |o.content| > quota.maxObjectBytes then Some(ObjectQuotaExceeded)
    else None
  }

  /** Is the object already stored, intact? */
  function Lookup(t: Objects, project: Project, o: Input): Result<bool, ObjectError>
  {
    if KeyOf(project, o) !in t.rows then Ok(false)
    else if t.rows[KeyOf(project, o)].byteLen != |o.content| then Err(IntegrityFailure)
    else
      match Decrypt(t.files, RefOf(project, o))
      case Err(e) => Err(e)
      case Ok(content) => if content != o.content then Err(IntegrityFailure) else Ok(true)
  }

  /** A checked object counts as stored only with its row and its own sealed bytes; a row whose file is missing,
      damaged or another's is an error, never a second copy. */
  lemma LookupMeaning(t: Objects, quota: ObjectQuota, project: Project, o: Input)
    requires CheckInput(quota, o).None?
    ensures var k, found := ObjectKey(project, Sha256(o.content)), Lookup(t, project, o);
            var whole := k in t.rows && k in t.files && t.rows[k].byteLen == |o.content|
                         && t.files[k] == Envelope(ObjectRef(project, Sha256(o.content), o.identity), o.content);
            && (found == Ok(false) <==> k !in t.rows)
            && (found == Ok(true) <==> whole)
            && (found.Err? <==> k in t.rows && !whole)
  {
  }

  function Add(t: Objects, project: Project, o: Input): Objects
  {
    var k := KeyOf(project, o);
    t.(rows := t.rows[k := Row(o.identity, |o.content|)], files := t.files[k := Envelope(RefOf(project, o), o.content)])
  }

  ghost function PutOne(t: Objects, quota: ObjectQuota, project: Project, o: Input)
    : Result<(Objects, PutResult), ObjectError>
  {
    if CheckInput(quota, o).Some? then Err(CheckInput(quota, o).value)
    else if project in t.tombstones then Err(ObjectProjectDeleted)
    else
      match Lookup(t, project, o)
      case Err(e) => Err(e)
      case Ok(true) => Ok((t, PutResult(RefOf(project, o), Reused)))
      case Ok(false) =>
        if Sum(t.rows, CountWeight(project)) >= quota.maxObjects then Err(ProjectObjectQuotaExceeded)
        else if Sum(t.rows, ByteWeight(project)) + |o.content| > quota.maxBytes then Err(ProjectByteQuotaExceeded)
        else Ok((Add(t, project, o), PutResult(RefOf(project, o), Stored)))
  }

  // ---------------------------------------------------------------- a batch

  predicate Holds(staged: seq<Input>, id: DigestValue)
  {
    exists i :: 0 <= i < |staged| && staged[i].identity.value == id
  }

  function Find(staged: seq<Input>, id: DigestValue): (o: Input)
    requires Holds(staged, id)
    ensures o in staged && o.identity.value == id
  {
    if staged[0].identity.value == id then staged[0] else Find(staged[1..], id)
  }

  /** Check every input and keep the first of each object id. */
  function Stage(quota: ObjectQuota, objects: seq<Input>): Result<seq<Input>, ObjectError>
  {
    if objects == [] then Ok([])
    else
      match Stage(quota, objects[..|objects| - 1])
      case Err(e) => Err(e)
      case Ok(staged) => StageOne(quota, staged, objects[|objects| - 1])
  }

  function StageOne(quota: ObjectQuota, staged: seq<Input>, o: Input): Result<seq<Input>, ObjectError>
  {
    if CheckInput(quota, o).Some? then Err(CheckInput(quota, o).value)
    else if !Holds(staged, o.identity.value) then Ok(staged + [o])
    else if Find(staged, o.identity.value) != o then Err(IntegrityFailure)
    else Ok(staged)
  }

  /** The staged objects that still need storing. */
  function Missing(t: Objects, project: Project, staged: seq<Input>): Result<seq<Input>, ObjectError>
  {
    if staged == [] then Ok([])
    else
      match Missing(t, project, staged[..|staged| - 1])
      case Err(e) => Err(e)
      case Ok(pending) => MissingOne(t, project, pending, staged[|staged| - 1])
  }

  function MissingOne(t: Objects, project: Project, pending: seq<Input>, o: Input): Result<seq<Input>, ObjectError>
  {
    match Lookup(t, project, o)
    case Err(e) => Err(e)
    case Ok(stored) => Ok(if stored then pending else pending + [o])
  }

  function BatchBytes(pending: seq<Input>): nat
  {
    if pending == [] then 0 else BatchBytes(pending[..|pending| - 1]) + |pending[|pending| - 1].content|
  }

  function AddAll(t: Objects, project: Project, pending: seq<Input>): Objects
  {
    if pending == [] then t else Add(AddAll(t, project, pending[..|pending| - 1]), project, pending[|pending| - 1])
  }

  /** Results in request order. */
  function Results(t: Objects, project: Project, objects: seq<Input>): seq<PutResult>
  {
    seq(|objects|, i requires 0 <= i < |objects| =>
      PutResult(RefOf(project, objects[i]), if KeyOf(project, objects[i]) in t.rows then Reused else Stored))
  }

  ghost function PutBatch(t: Objects, quota: ObjectQuota, project: Project, objects: seq<Input>)
    : Result<(Objects, seq<PutResult>), ObjectError>
  {
    var staged :- Stage(quota, objects);
    if project in t.tombstones then Err(ObjectProjectDeleted)
    else
      var pending :- Missing(t, project, staged);
      if Sum(t.rows, CountWeight(project)) + |pending| > quota.maxObjects then Err(ProjectObjectQuotaExceeded)
      else if Sum(t.rows, ByteWeight(project)) + BatchBytes(pending) > quota.maxBytes then Err(ProjectByteQuotaExceeded)
      else Ok((AddAll(t, project, pending), Results(t, project, objects)))
  }

  // ---------------------------------------------------------------- what the store keeps

  /** A row's file holds the very content the row is named after. */
  predicate Intact(t: Objects, k: ObjectKey)
    requires k in t.rows
  {
    && k.id.Sha256? && t.rows[k] == Row(Identity(SHA256, k.id), |k.id.content|)
    && k in t.files && t.files[k] == Envelope(ObjectRef(k.project, k.id, Identity(SHA256, k.id)), k.id.content)
  }

  ghost predicate AllIntact(t: Objects)
  {
    forall k :: k in t.rows ==> Intact(t, k)
  }

  ghost predicate WithinQuota(t: Objects, quota: ObjectQuota)
  {
    forall p: Project :: Sum(t.rows, CountWeight(p)) <= quota.maxObjects && Sum(t.rows, ByteWeight(p)) <= quota.maxBytes
  }

  ghost predicate StoreOk(t: Objects, quota: ObjectQuota)
  {
    AllIntact(t) && WithinQuota(t, quota)
  }

  function ObjectsOf(t: Objects, p: Project): set<ObjectKey> { set k | k in t.rows && k.project == p }

  function BytesOf(t: Objects, p: Project): set<(ObjectKey, nat)>
  {
    set k, i: nat | k in t.rows && k.project == p && i < t.rows[k].byteLen :: (k, i)
  }

  /** The quotas count the project's objects and the bytes of their contents. */
  lemma QuotasCount(t: Objects, p: Project)
    ensures Sum(t.rows, CountWeight(p)) == |ObjectsOf(t, p)| && Sum(t.rows, ByteWeight(p)) == |BytesOf(t, p)|
  {
    SumOfOnes(t.rows, CountWeight(p));
    assert Ones(t.rows, CountWeight(p)) == ObjectsOf(t, p);
    SumCounts(t.rows, ByteWeight(p));
    assert Units(t.rows, ByteWeight(p)) == BytesOf(t, p);
  }

  /** Inputs that passed their check, no object id twice. */
  ghost predicate Distinct(quota: ObjectQuota, s: seq<Input>)
  {
    && (forall i :: 0 <= i < |s| ==> CheckInput(quota, s[i]).None?)
    && (forall i, j :: 0 <= i < j < |s| ==> s[i].identity.value != s[j].identity.value)
  }

  /** On an intact store a lookup never fails, and finds exactly the stored objects. */
  lemma LookupIntact(t: Objects, quota: ObjectQuota, project: Project, o: Input)
    requires AllIntact(t) && CheckInput(quota, o).None?
    ensures Lookup(t, project, o) == Ok(KeyOf(project, o) in t.rows)
  {
  }

  /** Staging fails exactly on the first refused input; it keeps every object once. */
  lemma {:induction false} StageMeaning(quota: ObjectQuota, objects: seq<Input>)
    ensures Stage(quota, objects).Ok? <==> forall i :: 0 <= i < |objects| ==> CheckInput(quota, objects[i]).None?
    ensures Stage(quota, objects).Ok? ==> Distinct(quota, Stage(quota, objects).value)
    ensures Stage(quota, objects).Ok? ==> forall o :: o in Stage(quota, objects).value <==> o in objects
    ensures Stage(quota, objects).Err? ==> Stage(quota, objects).error in {ContentIdentityMismatch, ObjectQuotaExceeded}
  {
    if objects != [] {
      var init, o := objects[..|objects| - 1], objects[|objects| - 1];
      StageMeaning(quota, init);
      assert objects == init + [o];
      if Stage(quota, init).Ok? { StageOneMeaning(quota, Stage(quota, init).value, o); }
    }
  }

  lemma StageOneMeaning(quota: ObjectQuota, staged: seq<Input>, o: Input)
    requires Distinct(quota, staged)
    ensures StageOne(quota, staged, o).Ok? <==> CheckInput(quota, o).None?
    ensures StageOne(quota, staged, o).Ok? ==> Distinct(quota, StageOne(quota, staged, o).value)
    ensures StageOne(quota, staged, o).Ok? ==>
              forall x :: x in StageOne(quota, staged, o).value <==> x in staged || x == o
    ensures StageOne(quota, staged, o).Err? ==>
        StageOne(quota, staged, o).error in {ContentIdentityMismatch, ObjectQuotaExceeded}
  {
    if CheckInput(quota, o).None? && Holds(staged, o.identity.value) {
      var x := Find(staged, o.identity.value);
      var i :| 0 <= i < |staged| && staged[i] == x;
      assert CheckInput(quota, staged[i]).None?;
    }
  }

  /** What is missing on an intact store are the staged objects without a row. */
  lemma {:induction false} MissingMeaning(t: Objects, quota: ObjectQuota, project: Project, staged: seq<Input>)
    requires AllIntact(t) && Distinct(quota, staged)
    ensures Missing(t, project, staged).Ok?
    ensures Distinct(quota, Missing(t, project, staged).value)
    ensures forall o :: o in Missing(t, project, staged).value <==> o in staged && KeyOf(project, o) !in t.rows
  {
    if staged != [] {
      var init, o := staged[..|staged| - 1], staged[|staged| - 1];
      MissingMeaning(t, quota, project, init);
      assert staged == init + [o];
      LookupIntact(t, quota, project, o);
      assert forall x :: x in init ==> x.identity.value != o.identity.value;
    }
  }

  /** Objects that passed their check and have no row yet. */
  ghost predicate Addable(t: Objects, quota: ObjectQuota, project: Project, pending: seq<Input>)
  {
    Distinct(quota, pending) && forall i :: 0 <= i < |pending| ==> KeyOf(project, pending[i]) !in t.rows
  }

  /** Adding the missing objects keeps every row, adds theirs with their bytes, and touches nothing else. */
  ghost predicate Added(t: Objects, project: Project, pending: seq<Input>, after: Objects)
  {
    && AllIntact(after) && after.tombstones == t.tombstones
    && (forall k :: k in t.rows ==> k in after.rows && after.rows[k] == t.rows[k])
    && (forall k :: k in after.rows <==> k in t.rows || exists o :: o in pending && KeyOf(project, o) == k)
    && (forall k :: k in t.files && !(exists o :: o in pending && KeyOf(project, o) == k) ==>
        k in after.files && after.files[k] == t.files[k])
  }

  lemma AddedNext(t: Objects, quota: ObjectQuota, project: Project, init: seq<Input>, o: Input, mid: Objects)
    requires Addable(t, quota, project, init + [o]) && Added(t, project, init, mid)
    ensures Added(t, project, init + [o], Add(mid, project, o))
  {
    assert (init + [o])[|init|] == o;
  }

  lemma {:induction false} AddAllRows(t: Objects, quota: ObjectQuota, project: Project, pending: seq<Input>)
    requires AllIntact(t) && Addable(t, quota, project, pending)
    ensures Added(t, project, pending, AddAll(t, project, pending))
  {
    if pending != [] {
      var init, o := pending[..|pending| - 1], pending[|pending| - 1];
      assert pending == init + [o];
      AddAllRows(t, quota, project, init);
      AddedNext(t, quota, project, init, o, AddAll(t, project, init));
    }
  }

  lemma SumAdd(t: Objects, project: Project, o: Input, p: Project)
    requires KeyOf(project, o) !in t.rows
    ensures Sum(Add(t, project, o).rows, CountWeight(p)) == Sum(t.rows, CountWeight(p))
        + (if p == project then 1 else 0)
    ensures Sum(Add(t, project, o).rows, ByteWeight(p)) == Sum(t.rows, ByteWeight(p))
        + (if p == project then |o.content| else 0)
  {
    SumInsert(t.rows, CountWeight(p), KeyOf(project, o), Row(o.identity, |o.content|));
    SumInsert(t.rows, ByteWeight(p), KeyOf(project, o), Row(o.identity, |o.content|));
  }

  lemma {:induction false} AddAllSums(t: Objects, quota: ObjectQuota, project: Project, pending: seq<Input>, p: Project)
    requires AllIntact(t) && Addable(t, quota, project, pending)
    ensures var after := AddAll(t, project, pending).rows;
            && Sum(after, CountWeight(p)) == Sum(t.rows, CountWeight(p)) + (if p == project then |pending| else 0)
            && Sum(after, ByteWeight(p)) == Sum(t.rows, ByteWeight(p))
                + (if p == project then BatchBytes(pending) else 0)
  {
    if pending != [] {
      var init, o := pending[..|pending| - 1], pending[|pending| - 1];
      AddAllSums(t, quota, project, init, p);
      AddAllRows(t, quota, project, init);
      assert forall x :: x in init ==> KeyOf(project, x) != KeyOf(project, o);
      SumAdd(AddAll(t, project, init), project, o, p);
    }
  }

  // ---------------------------------------------------------------- the batch, as promised

  /** Every requested object has its row and reads back as the bytes that were put, and the results say,
      in request order, which were new. */
  ghost predicate AllStored(t: Objects, project: Project, objects: seq<Input>, after: Objects, results: seq<PutResult>)
  {
    && |results| == |objects|
    && (forall i :: 0 <= i < |objects| ==>
          && ReadVerified(after, RefOf(project, objects[i])) == Ok(objects[i].content)
          && results[i] ==
              PutResult(RefOf(project, objects[i]), if KeyOf(project, objects[i]) in t.rows then Reused else Stored))
    && (forall k :: k in t.rows ==> k in after.rows && after.rows[k] == t.rows[k])
    && (forall k :: k in after.rows && k !in t.rows ==>
        k.project == project && exists o :: o in objects && KeyOf(project, o) == k)
    && (forall k :: k in t.files && k.project != project ==> k in after.files && after.files[k] == t.files[k])
  }

  /** What is still to store is what was asked for and has no row. */
  lemma PendingMeaning(t: Objects, quota: ObjectQuota, project: Project, objects: seq<Input>)
    requires AllIntact(t) && Stage(quota, objects).Ok?
    ensures Missing(t, project, Stage(quota, objects).value).Ok?
    ensures Addable(t, quota, project, Missing(t, project, Stage(quota, objects).value).value)
    ensures forall o :: o in Missing(t, project, Stage(quota, objects).value).value <==>
        o in objects && KeyOf(project, o) !in t.rows
    ensures forall i :: 0 <= i < |objects| ==> CheckInput(quota, objects[i]).None?
  {
    StageMeaning(quota, objects);
    MissingMeaning(t, quota, project, Stage(quota, objects).value);
  }

  /** A batch that succeeds stores all of its objects and stays within the quotas. */
  lemma BatchStoresAll(t: Objects, quota: ObjectQuota, project: Project, objects: seq<Input>)
    requires StoreOk(t, quota) && PutBatch(t, quota, project, objects).Ok?
    ensures var (after, results) := PutBatch(t, quota, project, objects).value;
            StoreOk(after, quota) && AllStored(t, project, objects, after, results)
  {
    var pending := Missing(t, project, Stage(quota, objects).value).value;
    assert PutBatch(t, quota, project, objects).value == (AddAll(t, project, pending), Results(t, project, objects));
    PendingStored(t, quota, project, objects);
  }

  lemma PendingFits(t: Objects, quota: ObjectQuota, project: Project, objects: seq<Input>)
    requires StoreOk(t, quota) && PutBatch(t, quota, project, objects).Ok?
    ensures StoreOk(AddAll(t, project, Missing(t, project, Stage(quota, objects).value).value), quota)
  {
    PendingMeaning(t, quota, project, objects);
    var pending := Missing(t, project, Stage(quota, objects).value).value;
    AddAllRows(t, quota, project, pending);
    AddedWithinQuota(t, quota, project, pending);
  }

  lemma PendingStored(t: Objects, quota: ObjectQuota, project: Project, objects: seq<Input>)
    requires StoreOk(t, quota) && PutBatch(t, quota, project, objects).Ok?
    ensures var after := AddAll(t, project, Missing(t, project, Stage(quota, objects).value).value);
            StoreOk(after, quota) && AllStored(t, project, objects, after, Results(t, project, objects))
  {
    PendingMeaning(t, quota, project, objects);
    var pending := Missing(t, project, Stage(quota, objects).value).value;
    PendingFits(t, quota, project, objects);
    AddAllRows(t, quota, project, pending);
    AddedIsStored(t, quota, project, objects, pending);
  }

  /** Objects of the request the project does not have yet. */
  function NewKeys(t: Objects, project: Project, objects: seq<Input>): set<ObjectKey>
  {
    set i | 0 <= i < |objects| && KeyOf(project, objects[i]) !in t.rows :: KeyOf(project, objects[i])
  }

  lemma LastKey(quota: ObjectQuota, project: Project, s: seq<Input>)
    requires Distinct(quota, s) && s != []
    ensures var init, k := KeysOf(project, s[..|s| - 1]), KeyOf(project, s[|s| - 1]);
            k !in init && KeysOf(project, s) == init + {k}
  {
  }

  lemma {:induction false} DistinctKeys(quota: ObjectQuota, project: Project, s: seq<Input>)
    requires Distinct(quota, s)
    ensures |KeysOf(project, s)| == |s|
  {
    if s != [] {
      var init, o := s[..|s| - 1], s[|s| - 1];
      DistinctKeys(quota, project, init);
      LastKey(quota, project, s);
    }
  }

  lemma PendingKeys(t: Objects, project: Project, objects: seq<Input>, pending: seq<Input>)
    requires forall o :: o in pending <==> o in objects && KeyOf(project, o) !in t.rows
    ensures KeysOf(project, pending) == NewKeys(t, project, objects)
  {
    forall k | k in NewKeys(t, project, objects) ensures k in KeysOf(project, pending) {
      var i :| 0 <= i < |objects| && KeyOf(project, objects[i]) !in t.rows && KeyOf(project, objects[i]) == k;
      assert objects[i] in pending;
      var j :| 0 <= j < |pending| && pending[j] == objects[i];
    }
    forall k | k in KeysOf(project, pending) ensures k in NewKeys(t, project, objects) {
      var j :| 0 <= j < |pending| && KeyOf(project, pending[j]) == k;
      assert pending[j] in objects;
      var i :| 0 <= i < |objects| && objects[i] == pending[j];
    }
  }

  /** What is pending are the new objects, each counted once. */
  lemma PendingTotals(t: Objects, quota: ObjectQuota, project: Project, objects: seq<Input>, pending: seq<Input>)
    requires Distinct(quota, pending)
    requires forall o :: o in pending <==> o in objects && KeyOf(project, o) !in t.rows
    ensures |pending| == |NewKeys(t, project, objects)| && BatchBytes(pending) == KeyBytes(NewKeys(t, project, objects))
  {
    PendingKeys(t, project, objects, pending);
    DistinctKeys(quota, project, pending);
    BytesOfKeys(quota, project, pending);
  }

  function ContentBytes(id: DigestValue): nat { if id.Sha256? then |id.content| else 0 }

  /** Bytes of a set of objects. */
  ghost function KeyBytes(keys: set<ObjectKey>): nat
  {
    Sum(map k | k in keys :: ContentBytes(k.id), (k: ObjectKey, n: nat) => n)
  }

  function KeysOf(project: Project, s: seq<Input>): set<ObjectKey>
  {
    set i | 0 <= i < |s| :: KeyOf(project, s[i])
  }

  lemma {:induction false} BytesOfKeys(quota: ObjectQuota, project: Project, s: seq<Input>)
    requires Distinct(quota, s)
    ensures BatchBytes(s) == KeyBytes(KeysOf(project, s))
  {
    if s == [] {
      assert (map k | k in KeysOf(project, s) :: ContentBytes(k.id)) == map[];
    } else {
      var init, o := s[..|s| - 1], s[|s| - 1];
      BytesOfKeys(quota, project, init);
      var keys, k := KeysOf(project, init), KeyOf(project, o);
      LastKey(quota, project, s);
      KeyBytesAdd(keys, k);
    }
  }

  lemma KeyBytesAdd(keys: set<ObjectKey>, k: ObjectKey)
    requires k !in keys
    ensures KeyBytes(keys + {k}) == KeyBytes(keys) + ContentBytes(k.id)
  {
    var m := map x | x in keys :: ContentBytes(x.id);
    SumInsert(m, (x: ObjectKey, n: nat) => n, k, ContentBytes(k.id));
    assert (map x | x in keys + {k} :: ContentBytes(x.id)) == m[k := ContentBytes(k.id)];
  }

  /** The new objects fit the project's two quotas. */
  ghost predicate CountFits(t: Objects, quota: ObjectQuota, project: Project, objects: seq<Input>)
  {
    Sum(t.rows, CountWeight(project)) + |NewKeys(t, project, objects)| <= quota.maxObjects
  }

  ghost predicate BytesFit(t: Objects, quota: ObjectQuota, project: Project, objects: seq<Input>)
  {
    Sum(t.rows, ByteWeight(project)) + KeyBytes(NewKeys(t, project, objects)) <= quota.maxBytes
  }

  predicate Admissible(t: Objects, quota: ObjectQuota, project: Project, objects: seq<Input>)
  {
    (forall i :: 0 <= i < |objects| ==> CheckInput(quota, objects[i]).None?) && project !in t.tombstones
  }

  /** What each answer to a batch means on an intact store; integrity and I/O errors are not among them. Once
      every input is admissible and the project lives, the quotas decide alone. */
  lemma BatchAnswers(t: Objects, quota: ObjectQuota, project: Project, objects: seq<Input>)
    requires AllIntact(t)
    ensures var count, bytes := CountFits(t, quota, project, objects), BytesFit(t, quota, project, objects);
            match PutBatch(t, quota, project, objects)
            case Ok(_) => Admissible(t, quota, project, objects) && count && bytes
            case Err(ContentIdentityMismatch) =>
              exists i :: 0 <= i < |objects| && !Verifies(objects[i].identity, objects[i].content)
            case Err(ObjectQuotaExceeded) =>
              exists i :: 0 <= i < |objects| && |objects[i].content| > quota.maxObjectBytes
            case Err(ObjectProjectDeleted) => project in t.tombstones
            case Err(ProjectObjectQuotaExceeded) => Admissible(t, quota, project, objects) && !count
            case Err(ProjectByteQuotaExceeded) => Admissible(t, quota, project, objects) && count && !bytes
            case Err(_) => false
    ensures Admissible(t, quota, project, objects) ==>
              var count, bytes := CountFits(t, quota, project, objects), BytesFit(t, quota, project, objects);
              var reply := PutBatch(t, quota, project, objects);
              && (reply.Ok? <==> count && bytes)
              && (reply == Err(ProjectObjectQuotaExceeded) <==> !count)
              && (reply == Err(ProjectByteQuotaExceeded) <==> count && !bytes)
  {
    StageMeaning(quota, objects);
    if Stage(quota, objects).Ok? {
      PendingMeaning(t, quota, project, objects);
      PendingTotals(t, quota, project, objects, Missing(t, project, Stage(quota, objects).value).value);
    } else {
      StageBlames(quota, objects);
    }
  }

  lemma {:induction false} StageBlames(quota: ObjectQuota, objects: seq<Input>)
    requires Stage(quota, objects).Err?
    ensures exists i :: 0 <= i < |objects| && CheckInput(quota, objects[i]) == Some(Stage(quota, objects).error)
  {
    if objects != [] {
      var init, o := objects[..|objects| - 1], objects[|objects| - 1];
      StageMeaning(quota, init);
      if Stage(quota, init).Ok? {
        StageOneMeaning(quota, Stage(quota, init).value, o);
        StageMeaning(quota, objects);
        assert CheckInput(quota, objects[|objects| - 1]).Some?;
      } else {
        StageBlames(quota, init);
        var i :| 0 <= i < |init| && CheckInput(quota, init[i]) == Some(Stage(quota, init).error);
        assert CheckInput(quota, objects[i]) == Some(Stage(quota, objects).error);
      }
    }
  }

  lemma AddedWithinQuota(t: Objects, quota: ObjectQuota, project: Project, pending: seq<Input>)
    requires StoreOk(t, quota) && Addable(t, quota, project, pending)
    requires Sum(t.rows, CountWeight(project)) + |pending| <= quota.maxObjects
    requires Sum(t.rows, ByteWeight(project)) + BatchBytes(pending) <= quota.maxBytes
    ensures WithinQuota(AddAll(t, project, pending), quota)
  {
    forall p: Project
      ensures Sum(AddAll(t, project, pending).rows, CountWeight(p)) <= quota.maxObjects
      ensures Sum(AddAll(t, project, pending).rows, ByteWeight(p)) <= quota.maxBytes
    {
      AddAllSums(t, quota, project, pending, p);
    }
  }

  lemma AddedIsStored(t: Objects, quota: ObjectQuota, project: Project, objects: seq<Input>, pending: seq<Input>)
    requires AllIntact(t) && Added(t, project, pending, AddAll(t, project, pending))
    requires forall i :: 0 <= i < |objects| ==> CheckInput(quota, objects[i]).None?
    requires forall o :: o in pending <==> o in objects && KeyOf(project, o) !in t.rows
    ensures AllStored(t, project, objects, AddAll(t, project, pending), Results(t, project, objects))
  {
    var after := AddAll(t, project, pending);
    forall i | 0 <= i < |objects| ensures ReadVerified(after, RefOf(project, objects[i])) == Ok(objects[i].content) {
      var o := objects[i];
      assert o in objects;
      assert KeyOf(project, o) in after.rows && Intact(after, KeyOf(project, o));
    }
  }

  // ---------------------------------------------------------------- one object against a batch of one

  function AsBatch(r: Result<(Objects, PutResult), ObjectError>): Result<(Objects, seq<PutResult>), ObjectError>
  {
    match r case Err(e) => Err(e) case Ok((after, result)) => Ok((after, [result]))
  }

  /** The project already stores no more than its quota allows. */
  ghost predicate Within(t: Objects, quota: ObjectQuota, project: Project)
  {
    Sum(t.rows, CountWeight(project)) <= quota.maxObjects && Sum(t.rows, ByteWeight(project)) <= quota.maxBytes
  }

  lemma BatchOfOne(t: Objects, quota: ObjectQuota, project: Project, o: Input)
    requires CheckInput(quota, o).None?
    ensures Stage(quota, [o]) == Ok([o])
    ensures Missing(t, project, [o]) ==
            match Lookup(t, project, o)
            case Err(e) => Err(e)
            case Ok(stored) => Ok(if stored then [] else [o])
    ensures BatchBytes([o]) == |o.content| && AddAll(t, project, [o]) == Add(t, project, o)
  {
    assert [o][..0] == [];
    assert Stage(quota, []) == Ok([]) && Missing(t, project, []) == Ok([]) && BatchBytes([]) == 0
        && AddAll(t, project, []) == t;
    assert [] + [o] == [o];
  }

  lemma StageRefuses(quota: ObjectQuota, o: Input)
    requires CheckInput(quota, o).Some?
    ensures Stage(quota, [o]) == Err(CheckInput(quota, o).value)
  {
    assert [o][..0] == [] && Stage(quota, []) == Ok([]);
  }

  /** A single put gives the same rows, outcome and policy error as a batch of one, except that only the
      batch refuses to reuse an object when the project is already over its quota. */
  lemma SingleVersusBatch(t: Objects, quota: ObjectQuota, project: Project, o: Input)
    requires AllIntact(t)
    ensures PutBatch(t, quota, project, [o]) == AsBatch(PutOne(t, quota, project, o)) <==>
            (CheckInput(quota, o).None? && project !in t.tombstones && KeyOf(project, o) in t.rows ==>
             Within(t, quota, project))
  {
    if CheckInput(quota, o).None? {
      BatchOfOne(t, quota, project, o);
      LookupIntact(t, quota, project, o);
      assert Results(t, project, [o]) ==
          [PutResult(RefOf(project, o), if KeyOf(project, o) in t.rows then Reused else Stored)];
      assert BatchBytes([]) == 0 && AddAll(t, project, []) == t;
    } else {
      StageRefuses(quota, o);
    }
  }

  /** Within the store's own quota the two always agree. */
  lemma SingleIsBatchOfOne(t: Objects, quota: ObjectQuota, project: Project, o: Input)
    requires StoreOk(t, quota)
    ensures PutBatch(t, quota, project, [o]) == AsBatch(PutOne(t, quota, project, o))
  {
    SingleVersusBatch(t, quota, project, o);
  }

  lemma PutOneKeeps(t: Objects, quota: ObjectQuota, project: Project, o: Input)
    requires StoreOk(t, quota) && PutOne(t, quota, project, o).Ok?
    ensures StoreOk(PutOne(t, quota, project, o).value.0, quota)
  {
    SingleIsBatchOfOne(t, quota, project, o);
    BatchStoresAll(t, quota, project, [o]);
  }

  const EMPTY_STORE: Objects := Objects(map[], map[], {})
  const NO_BYTES: Input := Input(Identity(SHA256, Sha256([])), [])
  const ONE_BYTE: Input := Input(Identity(SHA256, Sha256([0])), [0])

  lemma BatchOfTwo(quota: ObjectQuota, project: Project, o: Input, other: Input)
    requires CheckInput(quota, o).None? && CheckInput(quota, other).None? && o.identity.value != other.identity.value
    ensures Stage(quota, [o, other]) == Ok([o, other]) && Missing(EMPTY_STORE, project, [o, other]) == Ok([o, other])
    ensures AddAll(EMPTY_STORE, project, [o, other]) == Add(Add(EMPTY_STORE, project, o), project, other)
    ensures BatchBytes([o, other]) == |o.content| + |other.content|
  {
    assert [o, other][..1] == [o] && [o] + [other] == [o, other];
    BatchOfOne(EMPTY_STORE, quota, project, o);
    assert Stage(quota, [o, other]) == StageOne(quota, [o], other);
    assert Missing(EMPTY_STORE, project, [o, other]) == MissingOne(EMPTY_STORE, project, [o], other);
  }

  lemma EmptySums(p: Project)
    ensures Sum(EMPTY_STORE.rows, CountWeight(p)) == 0 && Sum(EMPTY_STORE.rows, ByteWeight(p)) == 0
  {
  }

  /** Two objects fill a store that allows two; reopened to allow one, the store reuses singly what it refuses
      as a batch. */
  lemma LoweredQuotaSplitsThem(project: Project)
    ensures var first := PutBatch(EMPTY_STORE, ObjectQuota(2, 1, 1), project, [NO_BYTES, ONE_BYTE]);
            && first.Ok?
            && var t := first.value.0;
               && PutOne(t, ObjectQuota(1, 1, 1), project, NO_BYTES) ==
                   Ok((t, PutResult(RefOf(project, NO_BYTES), Reused)))
               && PutBatch(t, ObjectQuota(1, 1, 1), project, [NO_BYTES]) == Err(ProjectObjectQuotaExceeded)
  {
    assert |NO_BYTES.identity.value.content| != |ONE_BYTE.identity.value.content|;
    BatchOfTwo(ObjectQuota(2, 1, 1), project, NO_BYTES, ONE_BYTE);
    EmptySums(project);
    var t := Add(Add(EMPTY_STORE, project, NO_BYTES), project, ONE_BYTE);
    SumAdd(EMPTY_STORE, project, NO_BYTES, project);
    SumAdd(Add(EMPTY_STORE, project, NO_BYTES), project, ONE_BYTE, project);
    BatchOfOne(t, ObjectQuota(1, 1, 1), project, NO_BYTES);
  }

  // ---------------------------------------------------------------- the store

  /** Where a single put can break off. */
  datatype Fault = SealFails | CommitFails

  class EncryptedObjectStore {
    const quota: ObjectQuota
    var rows: map<ObjectKey, Row>
    var files: map<ObjectKey, Envelope>
    var tombstones: set<Project>

    function Tables(): Objects
      reads this
    {
      Objects(rows, files, tombstones)
    }

    constructor (quota: ObjectQuota)
      ensures this.quota == quota && Tables() == Objects(map[], map[], {})
    {
      this.quota, rows, files, tombstones := quota, map[], map[], {};
    }

    /** Sealing the file or committing its row may fail: then the rows stay as they were, and at most the
        object's own unreferenced file is left behind. */
    method PutVerified(project: Project, o: Input, fault: Option<Fault>) returns (reply: Result<PutResult, ObjectError>)
      modifies this`rows, this`files
      ensures match PutOne(old(Tables()), quota, project, o)
              case Err(e) => reply == Err(e) && Tables() == old(Tables())
              case Ok((after, result)) =>
                || (reply == Ok(result) && Tables() == after)
                || (&& fault.Some? && reply == Err(Io) && rows == old(rows) && KeyOf(project, o) !in rows
                    && forall k :: k in old(files) && k != KeyOf(project, o) ==>
                        k in files && files[k] == old(files[k]))
      ensures fault.None? ==> reply != Err(Io) || PutOne(old(Tables()), quota, project, o) == Err(Io)
      ensures StoreOk(old(Tables()), quota) ==> StoreOk(Tables(), quota)
    {
      if StoreOk(Tables(), quota) && PutOne(Tables(), quota, project, o).Ok? {
        PutOneKeeps(Tables(), quota, project, o);
      }
      var refused := CheckInput(quota, o);
      if refused.Some? { return Err(refused.value); }
      if project in tombstones { return Err(ObjectProjectDeleted); }
      var stored :- Lookup(Tables(), project, o);
      if stored { return Ok(PutResult(RefOf(project, o), Reused)); }
      var objects := Total(rows, CountWeight(project));
      var bytes := Total(rows, ByteWeight(project));
      if objects >= quota.maxObjects { return Err(ProjectObjectQuotaExceeded); }
      if bytes + |o.content| > quota.maxBytes { return Err(ProjectByteQuotaExceeded); }
      if fault == Some(SealFails) { return Err(Io); }
      files := files[KeyOf(project, o) := Envelope(RefOf(project, o), o.content)];
      if fault == Some(CommitFails) { return Err(Io); }
      rows := rows[KeyOf(project, o) := Row(o.identity, |o.content|)];
      reply := Ok(PutResult(RefOf(project, o), Stored));
    }

    method StageAll(objects: seq<Input>) returns (reply: Result<seq<Input>, ObjectError>)
      ensures reply == Stage(quota, objects)
    {
      var staged := [];
      for i := 0 to |objects|
        invariant Stage(quota, objects[..i]) == Ok(staged)
      {
        StagePrefix(quota, objects, i);
        var next := StageOne(quota, staged, objects[i]);
        if next.Err? {
          StageFails(quota, objects, i + 1);
          return next;
        }
        staged := next.value;
      }
      assert objects[..|objects|] == objects;
      reply := Ok(staged);
    }

    method FindMissing(project: Project, staged: seq<Input>) returns (reply: Result<seq<Input>, ObjectError>)
      ensures reply == Missing(Tables(), project, staged)
    {
      var pending := [];
      for i := 0 to |staged|
        invariant Missing(Tables(), project, staged[..i]) == Ok(pending)
      {
        MissingPrefix(Tables(), project, staged, i);
        var next := MissingOne(Tables(), project, pending, staged[i]);
        if next.Err? {
          MissingFails(Tables(), project, staged, i + 1);
          return next;
        }
        pending := next.value;
      }
      assert staged[..|staged|] == staged;
      reply := Ok(pending);
    }

    /** Write the pending files and rows. A failing write, insert or commit (at step `fault`) rolls the rows
        back and removes the files this call created. */
    method StoreAll(project: Project, pending: seq<Input>, fault: Option<nat>) returns (ok: bool)
      modifies this`rows, this`files
      ensures ok ==> Tables() == AddAll(old(Tables()), project, pending)
      ensures !ok ==> fault.Some? && rows == old(rows) && files.Keys == old(files).Keys
      ensures !ok ==>
                forall k :: k in files && (forall o :: o in pending ==> KeyOf(project, o) != k) ==>
                  files[k] == old(files[k])
    {
      var saved := rows;
      var created: set<ObjectKey> := {};
      ok := true;
      for i := 0 to |pending|
        invariant Tables() == AddAll(old(Tables()), project, pending[..i])
        invariant ok && saved == old(rows)
        invariant files.Keys == old(files).Keys + created && created !! old(files).Keys
        invariant forall k :: k in old(files) && (forall o :: o in pending[..i] ==> KeyOf(project, o) != k) ==>
            files[k] == old(files[k])
      {
        if fault == Some(i) { ok := false; break; }
        var o, k := pending[i], KeyOf(project, pending[i]);
        assert pending[..i + 1][..i] == pending[..i];
        assert o in pending[..i + 1];
        assert forall x :: x in pending[..i] ==> x in pending[..i + 1];
        if k !in files { created := created + {k}; }
        files := files[k := Envelope(RefOf(project, o), o.content)];
        rows := rows[k := Row(o.identity, |o.content|)];
      }
      assert pending[..|pending|] == pending;
      if ok && fault == Some(|pending|) { ok := false; }
      if !ok {
        rows := saved;
        files := files - created;
      }
    }

    /** All of the batch or none of its rows. */
    method PutVerifiedBatch(project: Project, objects: seq<Input>, fault: Option<nat>)
      returns (reply: Result<seq<PutResult>, ObjectError>)
      modifies this`rows, this`files
      ensures match PutBatch(old(Tables()), quota, project, objects)
              case Err(e) => reply == Err(e) && Tables() == old(Tables())
              case Ok((after, results)) =>
                || (reply == Ok(results) && Tables() == after)
                || (fault.Some? && reply == Err(Io) && rows == old(rows) && files.Keys == old(files).Keys)
      ensures StoreOk(old(Tables()), quota) ==> StoreOk(Tables(), quota)
    {
      if StoreOk(Tables(), quota) && PutBatch(Tables(), quota, project, objects).Ok? {
        BatchStoresAll(Tables(), quota, project, objects);
      }
      var staged :- StageAll(objects);
      if project in tombstones { return Err(ObjectProjectDeleted); }
      var pending :- FindMissing(project, staged);
      var storedObjects := Total(rows, CountWeight(project));
      var storedBytes := Total(rows, ByteWeight(project));
      var bytes := PendingBytes(pending);
      if storedObjects + |pending| > quota.maxObjects { return Err(ProjectObjectQuotaExceeded); }
      if storedBytes + bytes > quota.maxBytes { return Err(ProjectByteQuotaExceeded); }
      reply := Ok(Results(Tables(), project, objects));
      PendingHasNoRow(Tables(), project, staged);
      var ok := StoreAll(project, pending, fault);
      if !ok { reply := Err(Io); }
    }

    method PendingBytes(pending: seq<Input>) returns (bytes: nat)
      ensures bytes == BatchBytes(pending)
    {
      bytes := 0;
      for i := 0 to |pending|
        invariant bytes == BatchBytes(pending[..i])
      {
        assert pending[..i + 1][..i] == pending[..i];
        bytes := bytes + |pending[i].content|;
      }
      assert pending[..|pending|] == pending;
    }
  }

  lemma StagePrefix(quota: ObjectQuota, objects: seq<Input>, i: nat)
    requires i < |objects| && Stage(quota, objects[..i]).Ok?
    ensures Stage(quota, objects[..i + 1]) == StageOne(quota, Stage(quota, objects[..i]).value, objects[i])
  {
    assert objects[..i + 1][..i] == objects[..i];
  }

  lemma {:induction false} StageFails(quota: ObjectQuota, objects: seq<Input>, i: nat)
    requires i <= |objects| && Stage(quota, objects[..i]).Err?
    ensures Stage(quota, objects) == Stage(quota, objects[..i])
    decreases |objects|
  {
    if i == |objects| {
      assert objects[..i] == objects;
    } else {
      assert objects[..|objects| - 1][..i] == objects[..i];
      StageFails(quota, objects[..|objects| - 1], i);
    }
  }

  lemma MissingPrefix(t: Objects, project: Project, staged: seq<Input>, i: nat)
    requires i < |staged| && Missing(t, project, staged[..i]).Ok?
    ensures Missing(t, project, staged[..i + 1]) ==
        MissingOne(t, project, Missing(t, project, staged[..i]).value, staged[i])
  {
    assert staged[..i + 1][..i] == staged[..i];
  }

  lemma {:induction false} MissingFails(t: Objects, project: Project, staged: seq<Input>, i: nat)
    requires i <= |staged| && Missing(t, project, staged[..i]).Err?
    ensures Missing(t, project, staged) == Missing(t, project, staged[..i])
    decreases |staged|
  {
    if i == |staged| {
      assert staged[..i] == staged;
    } else {
      assert staged[..|staged| - 1][..i] == staged[..i];
      MissingFails(t, project, staged[..|staged| - 1], i);
    }
  }

  lemma {:induction false} PendingHasNoRow(t: Objects, project: Project, staged: seq<Input>)
    requires Missing(t, project, staged).Ok?
    ensures forall o :: o in Missing(t, project, staged).value ==> KeyOf(project, o) !in t.rows
  {
    if staged != [] { PendingHasNoRow(t, project, staged[..|staged| - 1]); }
  }
}
