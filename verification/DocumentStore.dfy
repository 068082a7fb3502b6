/** Optimistic concurrency over one stored document: the client of
    packages/azure-services/src/storage/cosmos-container-client.ts and the conditional write of
    packages/azure-services/src/azure-cosmos/cosmos-client-wrapper.ts. */
module DocumentStore {
  import opened Common
  import opened DocumentMerge

  // ----- the store -----

  /** The etag the service gives the n-th version of a document. Versions never share an etag. */
  type Etags = nat -> string

  ghost predicate Injective(etags: Etags) {
    forall m: nat, n: nat :: etags(m) == etags(n) ==> m == n
  }

  /** `getOptions`: the condition a write carries, when the item has an etag. */
  function IfMatch(item: Fields): Option<Json> {
    if Get(item, ETAG) != Undef then Some(Get(item, ETAG)) else None
  }

  /** Whether the service takes a write over the document it holds. */
  predicate Accepts(stored: Fields, item: Fields) {
    IfMatch(item).Some? ==> IfMatch(item).value == Get(stored, ETAG)
  }

  function Stamp(item: Fields, etag: string): Fields {
    item[ETAG := Leaf(Text(etag))]
  }

  const OK := 200
  const CREATED := 201
  const NOT_FOUND := 404
  const CONFLICT := 409
  const PRECONDITION_FAILED := 412

  predicate IsSuccess(statusCode: int) { 200 <= statusCode <= 299 }

  datatype Response = Response(statusCode: int, item: Option<Fields>)

  /** A status with which the service refuses an operation for reasons of its own, such as throttling. */
  type Fault = f: Option<int> | f.Some? ==> !IsSuccess(f.value) && f.value !in {NOT_FOUND, CONFLICT, PRECONDITION_FAILED}
    witness None

  const ID_UNDEFINED :=
    "Document id property is undefined. Storage document merge operation must have a valid document id property value."
  const KEY_UNDEFINED :=
    "Storage operation require partition key defined either as part of the document or as an operation parameter."
  const OPERATION_FAILED := "The Cosmos DB operation failed."

  /** `throwOperationError`, where a caller asks for it. */
  function Checked(response: Response, throwIfNotSuccess: bool): Result<Response, string> {
    if throwIfNotSuccess && !IsSuccess(response.statusCode) then Failure(OPERATION_FAILED) else Success(response)
  }

  /** The answer to an operation that was not done. */
  ghost predicate Refused(r: Result<Response, string>, statusCode: int, throwIfNotSuccess: bool) {
    r == if throwIfNotSuccess then Failure(OPERATION_FAILED) else Success(Response(statusCode, None))
  }

  /** Whether the service takes a write: over the version the item was read at, or of an item that carries no version. */
  predicate Takes(documents: map<string, Fields>, id: string, item: Fields) {
    if id in documents then Accepts(documents[id], item) else IfMatch(item).None?
  }

  /** One container of the service behind its client wrapper, with versions counted across its documents. */
  class CosmosContainer {
    const etags: Etags
    var documents: map<string, Fields>
    var version: nat

    constructor (etags: Etags)
      ensures documents == map[] && version == 0 && this.etags == etags
    {
      this.etags := etags;
      documents, version := map[], 0;
    }

    method ReadItem(id: string, fault: Fault, throwIfNotSuccess: bool) returns (r: Result<Response, string>)
      ensures fault.None? && id in documents ==> r == Success(Response(OK, Some(documents[id])))
      ensures fault.None? && id !in documents ==> Refused(r, NOT_FOUND, throwIfNotSuccess)
      ensures fault.Some? ==> Refused(r, fault.value, throwIfNotSuccess)
    {
      var response :=
        if fault.Some? then Response(fault.value, None)
        else if id in documents then Response(OK, Some(documents[id]))
        else Response(NOT_FOUND, None);
      r := Checked(response, throwIfNotSuccess);
    }

    method UpsertItem(id: string, item: Fields, partitionKey: string, fault: Fault, throwIfNotSuccess: bool)
      returns (r: Result<Response, string>)
      modifies this
      ensures fault.None? && Takes(old(documents), id, item) ==>
        && documents == old(documents)[id := Stamp(AssignPartitionKey(item, partitionKey), etags(old(version) + 1))]
        && version == old(version) + 1
        && r.Success? && IsSuccess(r.value.statusCode) && r.value.item == Some(documents[id])
      ensures fault.Some? || !Takes(old(documents), id, item) ==>
        && documents == old(documents) && version == old(version)
        && Refused(r, if fault.Some? then fault.value else PRECONDITION_FAILED, throwIfNotSuccess)
    {
      if fault.Some? { return Checked(Response(fault.value, None), throwIfNotSuccess); }
      var keyed := AssignPartitionKey(item, partitionKey);
      if !Takes(documents, id, keyed) { return Checked(Response(PRECONDITION_FAILED, None), throwIfNotSuccess); }
      var status := if id in documents then OK else CREATED;
      version := version + 1;
      documents := documents[id := Stamp(keyed, etags(version))];
      r := Success(Response(status, Some(documents[id])));
    }

    method CreateItem(id: string, item: Fields, partitionKey: string, fault: Fault, throwIfNotSuccess: bool)
      returns (r: Result<Response, string>)
      modifies this
      ensures fault.None? && id !in old(documents) ==>
        && documents == old(documents)[id := Stamp(AssignPartitionKey(item, partitionKey), etags(old(version) + 1))]
        && version == old(version) + 1 && r == Success(Response(CREATED, Some(documents[id])))
      ensures fault.Some? || id in old(documents) ==>
        && documents == old(documents) && version == old(version)
        && Refused(r, if fault.Some? then fault.value else CONFLICT, throwIfNotSuccess)
    {
      if fault.Some? { return Checked(Response(fault.value, None), throwIfNotSuccess); }
      if id in documents { return Checked(Response(CONFLICT, None), throwIfNotSuccess); }
      version := version + 1;
      documents := documents[id := Stamp(AssignPartitionKey(item, partitionKey), etags(version))];
      r := Success(Response(CREATED, Some(documents[id])));
    }
  }

  /** The effective partition key: the parameter, or else the document's own, which is a string. */
  function EffectivePartitionKey(document: Fields, partitionKey: Option<string>): Result<string, string> {
    if partitionKey.Some? then Success(partitionKey.value)
    else
      match Get(document, "partitionKey")
      case Undef => Failure(KEY_UNDEFINED)
      case Leaf(Text(key)) => Success(key)
      case _ => Success("")
  }

  /** `assignPartitionKey`: an empty key is not written. */
  function AssignPartitionKey(item: Fields, key: string): Fields {
    if key == "" then item else item["partitionKey" := Leaf(Text(key))]
  }

  predicate HasId(document: Fields) {
    Get(document, "id").Leaf? && Get(document, "id").scalar.Text?
  }

  class CosmosContainerClient {
    const container: CosmosContainer

    constructor (container: CosmosContainer)
      ensures this.container == container
    {
      this.container := container;
    }

    /** One call that no other client interleaves with. Interleavings are the subject of Next below. */
    method MergeOrWriteDocument(
      document: Fields, partitionKey: Option<string>, throwIfNotSuccess: bool, readFault: Fault, writeFault: Fault)
      returns (r: Result<Response, string>)
      modifies container
      ensures !HasId(document) || EffectivePartitionKey(document, partitionKey).Failure? || readFault.Some? ==>
                r.Failure? && container.documents == old(container.documents)
      ensures HasId(document) && EffectivePartitionKey(document, partitionKey).Success? && readFault.None? ==>
                var id, key := document["id"].scalar.text, EffectivePartitionKey(document, partitionKey).value;
                var etag := container.etags(old(container.version) + 1);
                if writeFault.Some? then
                  container.documents == old(container.documents) && Refused(r, writeFault.value, throwIfNotSuccess)
                else if id in old(container.documents) then
                  Get(old(container.documents)[id], ETAG).Leaf? ==>
                    && r.Success? && IsSuccess(r.value.statusCode)
                    && container.documents == old(container.documents)[id :=
                         Stamp(AssignPartitionKey(Apply(old(container.documents)[id], document), key), etag)]
                else if Get(document, ETAG) == Undef then
                  && r.Success? && IsSuccess(r.value.statusCode)
                  && container.documents == old(container.documents)[id := Stamp(AssignPartitionKey(document, key), etag)]
                else
                  container.documents == old(container.documents) && Refused(r, PRECONDITION_FAILED, throwIfNotSuccess)
    {
      hide Apply;
      if !HasId(document) {
        return Failure(ID_UNDEFINED);
      }
      var id := document["id"].scalar.text;
      var key := EffectivePartitionKey(document, partitionKey);
      if key.Failure? {
        return Failure(key.error);
      }
      var read := container.ReadItem(id, readFault, false);
      if read.value.statusCode == NOT_FOUND {
        r := container.UpsertItem(id, document, key.value, writeFault, throwIfNotSuccess);
        return;
      }
      if !IsSuccess(read.value.statusCode) {
        return Failure(OPERATION_FAILED);
      }
      EtagSurvivesOrNot(read.value.item.value, document);
      r := container.UpsertItem(id, Apply(read.value.item.value, document), key.value, writeFault, throwIfNotSuccess);
    }

    /** An existing document is returned as it is; otherwise the given one is created. */
    method CreateDocumentIfNotExist(
      id: string, document: Fields, partitionKey: Option<string>, throwIfNotSuccess: bool, createFault: Fault, readFault: Fault)
      returns (r: Result<Response, string>)
      modifies container
      ensures EffectivePartitionKey(document, partitionKey).Failure? || createFault.Some? ==>
                r.Failure? && container.documents == old(container.documents)
      ensures EffectivePartitionKey(document, partitionKey).Success? && createFault.None? ==>
                if id in old(container.documents) then
                  && container.documents == old(container.documents)
                  && if readFault.Some? then Refused(r, readFault.value, throwIfNotSuccess)
                     else r == Success(Response(OK, Some(old(container.documents)[id])))
                else
                  var key := EffectivePartitionKey(document, partitionKey).value;
                  && container.documents == old(container.documents)[id :=
                       Stamp(AssignPartitionKey(document, key), container.etags(old(container.version) + 1))]
                  && r == Success(Response(CREATED, Some(container.documents[id])))
    {
      var key := EffectivePartitionKey(document, partitionKey);
      if key.Failure? {
        return Failure(key.error);
      }
      r := container.CreateItem(id, document, key.value, createFault, false);
      if r.value.statusCode == CONFLICT {
        r := container.ReadItem(id, readFault, throwIfNotSuccess);
      } else {
        r := Checked(r.value, true);
      }
    }
  }

  lemma EtagSurvivesOrNot(stored: Fields, patch: Fields)
    ensures Get(stored, ETAG).Leaf? ==> Get(Apply(stored, patch), ETAG) == Get(stored, ETAG)
  {
    if Get(stored, ETAG).Leaf? { EtagSurvives(stored, patch); }
  }

  /** The key a merged document is written under: a given one comes before the document's own, and only without both is the
      operation refused. */
  lemma GivenKeyComesFirst(stored: Fields, document: Fields, partitionKey: Option<string>)
    ensures var key := EffectivePartitionKey(document, partitionKey);
      && (key.Failure? <==> partitionKey.None? && Get(document, "partitionKey") == Undef)
      && (key.Success? ==>
            var own := Get(AssignPartitionKey(Apply(stored, document), key.value), "partitionKey");
            if partitionKey.Some? && partitionKey.value != "" then own == Leaf(Text(partitionKey.value))
            else Get(document, "partitionKey").Leaf? ==> own == Get(document, "partitionKey"))
  {
    hide Merge, Normalize;
    ApplyField(Obj(stored), Obj(document), "partitionKey");
    if Get(document, "partitionKey").Leaf? { MergeScalar(Get(stored, "partitionKey"), Get(document, "partitionKey")); }
  }

  // ----- concurrent clients -----

  /** A client that has read the document and will try to write its merge back. */
  datatype Pending = Pending(read: Fields, patch: Fields, partitionKey: string)

  /** A patch together with the partition key it is written under. */
  function WithKey(patch: Fields, partitionKey: string): Fields { AssignPartitionKey(patch, partitionKey) }

  /** Assigning the partition key to the merged document is merging it with the patch. */
  lemma AssigningIsMerging(stored: Fields, patch: Fields, partitionKey: string)
    ensures AssignPartitionKey(Apply(stored, patch), partitionKey) == Apply(stored, WithKey(patch, partitionKey))
  {
    hide Apply;
    forall k ensures Get(AssignPartitionKey(Apply(stored, patch), partitionKey), k)
                  == Get(Apply(stored, WithKey(patch, partitionKey)), k) {
      AssignedField(stored, patch, partitionKey, k);
    }
    NothingBlank(stored, patch);
    NothingBlank(stored, WithKey(patch, partitionKey));
    SameFields(AssignPartitionKey(Apply(stored, patch), partitionKey), Apply(stored, WithKey(patch, partitionKey)));
  }

  lemma AssignedField(stored: Fields, patch: Fields, partitionKey: string, k: string)
    ensures Get(AssignPartitionKey(Apply(stored, patch), partitionKey), k) == Get(Apply(stored, WithKey(patch, partitionKey)), k)
  {
    hide Merge, Normalize;
    ApplyField(Obj(stored), Obj(patch), k);
    ApplyField(Obj(stored), Obj(WithKey(patch, partitionKey)), k);
    MergeScalar(Get(stored, k), Leaf(Text(partitionKey)));
  }

  lemma NothingBlank(stored: Fields, patch: Fields)
    ensures forall k :: k in Apply(stored, patch) ==> Apply(stored, patch)[k] != Undef
  {
    hide Merge, Normalize;
    MergeIsObject(Obj(stored), Obj(patch));
    NoBlankFields(Merge(Obj(stored), Obj(patch)));
  }

  /** The document, the number of writes it has taken, the clients between read and write, and the patches written, each with
      its partition key. */
  datatype System = System(doc: Fields, version: nat, pending: map<int, Pending>, committed: seq<Fields>)

  ghost predicate Init(s: System, etags: Etags, first: Fields) {
    && s == System(Stamp(first, etags(0)), 0, map[], [])
  }

  /** A client reads the document in order to merge a patch. */
  ghost predicate Reads(s: System, s': System, client: int, patch: Fields, key: string) {
    client !in s.pending && s' == s.(pending := s.pending[client := Pending(s.doc, patch, key)])
  }

  /** A client writes its merged document; the service takes it or answers 412. */
  ghost predicate Writes(s: System, s': System, etags: Etags, client: int) {
    && client in s.pending
    && var p := s.pending[client];
      var item := AssignPartitionKey(Apply(p.read, p.patch), p.partitionKey);
      var rest := s.pending - {client};
      if Accepts(s.doc, item) then
        s' == System(Stamp(item, etags(s.version + 1)), s.version + 1, rest, s.committed + [WithKey(p.patch, p.partitionKey)])
      else
        s' == s.(pending := rest)
  }

  /** A client stops between its read and its write. */
  ghost predicate Stops(s: System, s': System, client: int) {
    s' == s.(pending := s.pending - {client})
  }

  ghost predicate Next(s: System, s': System, etags: Etags) {
    || (exists client, patch, key :: Reads(s, s', client, patch, key))
    || (exists client :: Writes(s, s', etags, client))
    || (exists client :: Stops(s, s', client))
  }

  ghost predicate Run(run: seq<System>, etags: Etags, first: Fields) {
    && |run| > 0 && Init(run[0], etags, first)
    && forall i :: 0 <= i < |run| - 1 ==> Next(run[i], run[i + 1], etags)
  }

  /** What the document is when the patches are applied one after the other, with nobody in between. */
  ghost function Sequential(first: Fields, patches: seq<Fields>, etags: Etags): Fields {
    if patches == [] then Stamp(first, etags(0))
    else
      Stamp(Apply(Sequential(first, patches[..|patches| - 1], etags), patches[|patches| - 1]), etags(|patches|))
  }

  lemma SequentialEtag(first: Fields, patches: seq<Fields>, etags: Etags)
    ensures Get(Sequential(first, patches, etags), ETAG) == Leaf(Text(etags(|patches|)))
  {}

  ghost predicate Inv(s: System, etags: Etags, first: Fields) {
    && s.version == |s.committed|
    && s.doc == Sequential(first, s.committed, etags)
    && forall c :: c in s.pending ==> ReadEarlier(s.pending[c].read, s.committed, etags, first)
  }

  /** The document read is the one that some prefix of the committed patches made. */
  ghost predicate ReadEarlier(read: Fields, committed: seq<Fields>, etags: Etags, first: Fields) {
    exists n :: 0 <= n <= |committed| && read == Sequential(first, committed[..n], etags)
  }

  lemma ReadStaysEarlier(read: Fields, committed: seq<Fields>, patch: Fields, etags: Etags, first: Fields)
    requires ReadEarlier(read, committed, etags, first)
    ensures ReadEarlier(read, committed + [patch], etags, first)
  {
    var n :| 0 <= n <= |committed| && read == Sequential(first, committed[..n], etags);
    assert (committed + [patch])[..n] == committed[..n];
  }

  /** The write of a client is taken only when nobody wrote since its read. */
  lemma AcceptedMeansUnchanged(s: System, etags: Etags, first: Fields, client: int)
    requires Injective(etags) && Inv(s, etags, first) && client in s.pending
    requires var p := s.pending[client]; Accepts(s.doc, AssignPartitionKey(Apply(p.read, p.patch), p.partitionKey))
    ensures s.pending[client].read == s.doc
  {
    hide Apply, Sequential;
    var p := s.pending[client];
    var n :| 0 <= n <= |s.committed| && p.read == Sequential(first, s.committed[..n], etags);
    SequentialEtag(first, s.committed[..n], etags);
    SequentialEtag(first, s.committed, etags);
    EtagSurvives(p.read, p.patch);
    assert etags(n) == etags(|s.committed|);
    assert s.committed[..n] == s.committed;
  }

  lemma StepKeepsInv(s: System, s': System, etags: Etags, first: Fields)
    requires Injective(etags) && Inv(s, etags, first) && Next(s, s', etags)
    ensures Inv(s', etags, first)
    ensures s.committed <= s'.committed
  {
    hide Apply, Sequential;
    if client, patch, key :| Reads(s, s', client, patch, key) {
      assert s.committed[..|s.committed|] == s.committed;
      assert ReadEarlier(s.doc, s.committed, etags, first);
    } else if client :| Writes(s, s', etags, client) {
      var p := s.pending[client];
      if Accepts(s.doc, AssignPartitionKey(Apply(p.read, p.patch), p.partitionKey)) {
        var patch := WithKey(p.patch, p.partitionKey);
        AcceptedMeansUnchanged(s, etags, first, client);
        AssigningIsMerging(s.doc, p.patch, p.partitionKey);
        SequentialSnoc(first, s.committed, patch, etags);
        forall c | c in s'.pending ensures ReadEarlier(s'.pending[c].read, s'.committed, etags, first) {
          ReadStaysEarlier(s.pending[c].read, s.committed, patch, etags, first);
        }
      }
    }
  }

  lemma SequentialSnoc(first: Fields, patches: seq<Fields>, patch: Fields, etags: Etags)
    ensures Sequential(first, patches + [patch], etags)
         == Stamp(Apply(Sequential(first, patches, etags), patch), etags(|patches| + 1))
  {
    hide Apply, Stamp;
    assert (patches + [patch])[..|patches|] == patches;
  }

  /** In every run, at every point, the document is what the committed patches make one after the other in commit order:
      no successful write discards another one, and the list of committed patches only grows. */
  lemma {:induction false} NoLostUpdate(run: seq<System>, etags: Etags, first: Fields, i: nat, j: nat)
    requires Injective(etags) && Run(run, etags, first) && i <= j < |run|
    ensures Inv(run[j], etags, first)
    ensures run[j].doc == Sequential(first, run[j].committed, etags)
    ensures run[i].committed <= run[j].committed
  {
    hide Sequential, Inv, Next, Injective;
    if j == 0 {
      InitInv(run[0], etags, first);
    } else {
      NoLostUpdate(run, etags, first, if i < j then i else j - 1, j - 1);
      StepKeepsInv(run[j - 1], run[j], etags, first);
    }
    InvDoc(run[j], etags, first);
  }

  lemma InitInv(s: System, etags: Etags, first: Fields)
    requires Init(s, etags, first)
    ensures Inv(s, etags, first)
  {}

  lemma InvDoc(s: System, etags: Etags, first: Fields)
    requires Inv(s, etags, first)
    ensures s.doc == Sequential(first, s.committed, etags)
  {}

  /** Hence a value that one committed patch sets, and no later one mentions, is still in the document. */
  lemma {:induction false} CommittedValueSurvives(
    first: Fields, patches: seq<Fields>, etags: Etags, i: nat, path: seq<Place>, value: Scalar)
    requires i < |patches| && path != [] && Field(ETAG) !in path
    requires Look(Obj(patches[i]), path) == Leaf(value)
    requires ArraysFit(Obj(Sequential(first, patches[..i], etags)), path)
    requires forall j :: i < j < |patches| ==> Untouched(Obj(patches[j]), path)
    ensures Look(Obj(Sequential(first, patches, etags)), path) == Leaf(value)
    decreases |patches|
  {
    hide Merge, Normalize, Sequential;
    var init, last := patches[..|patches| - 1], patches[|patches| - 1];
    assert patches == init + [last];
    SequentialSnoc(first, init, last, etags);
    var before := Sequential(first, init, etags);
    if i == |patches| - 1 {
      assert patches[..i] == init;
      MentionedIsSet(Obj(before), Obj(last), path);
    } else {
      assert init[..i] == patches[..i];
      CommittedValueSurvives(first, init, etags, i, path, value);
      UnmentionedIsKept(Obj(before), Obj(last), path);
      LeafStays(Obj(before), path, value);
    }
    ApplyIsObject(before, last);
    StampElsewhere(Apply(before, last), etags(|patches|), path);
  }

  lemma ApplyIsObject(stored: Fields, patch: Fields)
    ensures Obj(Apply(stored, patch)) == Normalize(Merge(Obj(stored), Obj(patch)))
  {}

  lemma StampElsewhere(item: Fields, etag: string, path: seq<Place>)
    requires path != [] && path[0] != Field(ETAG)
    ensures Look(Obj(Stamp(item, etag)), path) == Look(Obj(item), path)
  {
    assert Under(Obj(Stamp(item, etag)), path[0]) == Under(Obj(item), path[0]);
  }

  lemma LeafStays(j: Json, path: seq<Place>, value: Scalar)
    requires Look(j, path) == Leaf(value)
    ensures Look(Normalize(j), path) == Leaf(value)
  {
    if path != [] { LookNormalized(j, path); }
  }
}
