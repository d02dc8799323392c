/** The replay store: a sorted index and content-addressed blobs that together act as a map from requests to responses. */
module ReplayStore {
  import opened Wrappers
  import opened Bytes
  import PathOrder

  /** A normalized request; its payload stands for the payload's digest and size. */
  datatype Request = Request(transport: string, remoteIp: string, remotePort: nat, payload: seq<byte>, hint: Option<string>)

  datatype Response = Response(bytes: seq<byte>, closeAfterSend: bool, delayMs: int)

  /** An index entry; the digest names the response blob and its bytes stand for it. */
  datatype Entry = Entry(id: string, request: Request, digest: seq<byte>, size: nat, closeAfterSend: bool, delayMs: int)

  datatype StoreError = BadRequest | TooLarge | BadIndex | EntryExists | MissingBlob | SizeMismatch | DigestMismatch

  const MAX_DELAY: int := 60000

  predicate DelayParses(delayMs: int) {
    0 <= delayMs <= MAX_DELAY
  }

  /** What reading an entry back checks. */
  predicate Parses(e: Entry, fingerprint: Request -> string) {
    DelayParses(e.delayMs) && e.id == fingerprint(e.request)
  }

  /** Strictly ascending by id, so without repetition. */
  ghost predicate Ascending(index: seq<Entry>) {
    forall i, j | 0 <= i < j < |index| :: PathOrder.Less(index[i].id, index[j].id)
  }

  predicate HasId(index: seq<Entry>, id: string) {
    exists i :: 0 <= i < |index| && index[i].id == id
  }

  /** The map an index stands for. */
  function MapOf(index: seq<Entry>): map<Request, Response> {
    if index == [] then map[]
    else
      var e := index[|index| - 1];
      MapOf(index[..|index| - 1])[e.request := Response(e.digest, e.closeAfterSend, e.delayMs)]
  }

  function ToResponse(e: Entry): Response {
    Response(e.digest, e.closeAfterSend, e.delayMs)
  }

  /** Every id is its request's fingerprint. */
  ghost predicate Identified(index: seq<Entry>, fingerprint: Request -> string) {
    forall i | 0 <= i < |index| :: index[i].id == fingerprint(index[i].request)
  }

  ghost predicate Injective(fingerprint: Request -> string) {
    forall a, b | fingerprint(a) == fingerprint(b) :: a == b
  }

  lemma {:induction false} AscendingPrefix(index: seq<Entry>, n: nat)
    requires Ascending(index) && n <= |index|
    ensures Ascending(index[..n])
  {
  }

  /** In an index with fingerprints for ids, in order, the map has exactly the entries' responses. */
  lemma {:induction false} MapEntries(index: seq<Entry>, fingerprint: Request -> string, q: Request)
    requires Ascending(index) && Identified(index, fingerprint) && Injective(fingerprint)
    ensures q in MapOf(index) <==> HasId(index, fingerprint(q))
    ensures forall i | 0 <= i < |index| && index[i].id == fingerprint(q) ::
            q in MapOf(index) && MapOf(index)[q] == ToResponse(index[i])
  {
    if index != [] {
      var n := |index| - 1;
      var init := index[..n];
      AscendingPrefix(index, n);
      MapEntries(init, fingerprint, q);
      assert index[n].id == fingerprint(index[n].request);
      if HasId(init, fingerprint(q)) {
        var i :| 0 <= i < n && init[i].id == fingerprint(q);
        assert index[i].id == fingerprint(q);
      }
      if HasId(index, fingerprint(q)) {
        var i :| 0 <= i < |index| && index[i].id == fingerprint(q);
        assert i < n ==> init[i].id == fingerprint(q);
      }
      forall i | 0 <= i < |index| && index[i].id == fingerprint(q) ensures q in MapOf(index)
        && MapOf(index)[q] == ToResponse(index[i]) {
        if i < n {
          assert init[i] == index[i];
          PathOrder.LessIrreflexive(index[i].id);
        }
      }
    }
  }

  /** Two indexes with the same entries stand for the same map. */
  lemma {:induction false} SameMap(a: seq<Entry>, b: seq<Entry>, e: Entry, fingerprint: Request -> string)
    requires Ascending(a) && Ascending(b) && Identified(a, fingerprint) && Identified(b, fingerprint) && Injective(fingerprint)
    requires e in b && forall x :: x in b <==> x == e || (x in a && x.id != e.id)
    ensures MapOf(b) == MapOf(a)[e.request := ToResponse(e)]
  {
    forall q ensures q in MapOf(b) <==> q in MapOf(a) || q == e.request
      ensures q in MapOf(b) ==> MapOf(b)[q] == if q == e.request then ToResponse(e) else MapOf(a)[q]
    {
      MapEntries(a, fingerprint, q);
      MapEntries(b, fingerprint, q);
      SameMapAt(a, b, e, fingerprint, q);
    }
  }

  lemma {:induction false} SameMapAt(a: seq<Entry>, b: seq<Entry>, e: Entry, fingerprint: Request -> string, q: Request)
    requires Identified(a, fingerprint) && Identified(b, fingerprint) && Injective(fingerprint)
    requires e in b && forall x :: x in b <==> x == e || (x in a && x.id != e.id)
    requires q in MapOf(a) <==> HasId(a, fingerprint(q))
    requires q in MapOf(b) <==> HasId(b, fingerprint(q))
    requires forall i | 0 <= i < |a| && a[i].id == fingerprint(q) :: q in MapOf(a) && MapOf(a)[q] == ToResponse(a[i])
    requires forall i | 0 <= i < |b| && b[i].id == fingerprint(q) :: q in MapOf(b) && MapOf(b)[q] == ToResponse(b[i])
    ensures q in MapOf(b) <==> q in MapOf(a) || q == e.request
    ensures q in MapOf(b) ==> MapOf(b)[q] == if q == e.request then ToResponse(e) else MapOf(a)[q]
  {
    hide MapOf;
    var at :| 0 <= at < |b| && b[at] == e;
    assert b[at].id == fingerprint(e.request);
    if HasId(b, fingerprint(q)) && q != e.request {
      var i :| 0 <= i < |b| && b[i].id == fingerprint(q);
      assert b[i] in b && b[i] != e;
      var j :| 0 <= j < |a| && a[j] == b[i];
      assert a[j].id == fingerprint(q);
    }
    if HasId(a, fingerprint(q)) && q != e.request {
      var j :| 0 <= j < |a| && a[j].id == fingerprint(q);
      assert a[j] in a && a[j].id != e.id;
      var i :| 0 <= i < |b| && b[i] == a[j];
      assert b[i].id == fingerprint(q);
    }
  }

  /** The index without an id. */
  function Without(index: seq<Entry>, id: string): seq<Entry> {
    if index == [] then []
    else
      var e := index[|index| - 1];
      Without(index[..|index| - 1], id) + if e.id != id then [e] else []
  }

  lemma {:induction false} WithoutElements(index: seq<Entry>, id: string)
    ensures forall e :: e in Without(index, id) <==> e in index && e.id != id
  {
    if index != [] {
      var n := |index| - 1;
      WithoutElements(index[..n], id);
      assert index == index[..n] + [index[n]];
    }
  }

  lemma {:induction false} WithoutAscending(index: seq<Entry>, id: string)
    requires Ascending(index)
    ensures Ascending(Without(index, id))
  {
    if index != [] {
      var n := |index| - 1;
      var w := Without(index[..n], id);
      AscendingPrefix(index, n);
      WithoutAscending(index[..n], id);
      WithoutElements(index[..n], id);
      forall i | 0 <= i < |w| ensures PathOrder.Less(w[i].id, index[n].id) {
        assert w[i] in index[..n];
        var k :| 0 <= k < n && index[..n][k] == w[i];
        assert index[k] == w[i];
      }
    }
  }

  lemma {:induction false} WithoutIs(index: seq<Entry>, id: string)
    ensures forall e :: e in Without(index, id) <==> e in index && e.id != id
    ensures Ascending(index) ==> Ascending(Without(index, id))
  {
    hide Ascending;
    WithoutElements(index, id);
    if Ascending(index) {
      WithoutAscending(index, id);
    }
  }

  /** Where an entry with a new id goes. */
  method InsertEntry(index: seq<Entry>, e: Entry) returns (r: seq<Entry>)
    requires Ascending(index) && !HasId(index, e.id)
    ensures Ascending(r) && forall x :: x in r <==> x in index || x == e
  {
    var at := 0;
    while at < |index| && PathOrder.Less(index[at].id, e.id)
      invariant 0 <= at <= |index|
      invariant forall i | 0 <= i < at :: PathOrder.Less(index[i].id, e.id)
    {
      at := at + 1;
    }
    r := index[..at] + [e] + index[at..];
    Inserted(index, e, at);
  }

  lemma {:induction false} Inserted(index: seq<Entry>, e: Entry, at: nat)
    requires Ascending(index) && !HasId(index, e.id) && at <= |index|
    requires forall i | 0 <= i < at :: PathOrder.Less(index[i].id, e.id)
    requires at < |index| ==> !PathOrder.Less(index[at].id, e.id)
    ensures var r := index[..at] + [e] + index[at..];
            Ascending(r) && forall x :: x in r <==> x in index || x == e
  {
    var r := index[..at] + [e] + index[at..];
    assert index == index[..at] + index[at..];
    forall i | at <= i < |index| ensures PathOrder.Less(e.id, index[i].id) {
      PathOrder.LessTotal(e.id, index[at].id);
      assert index[at].id != e.id;
      if at < i {
        PathOrder.LessTransitive(e.id, index[at].id, index[i].id);
      }
    }
    forall i, j | 0 <= i < j < |r| ensures PathOrder.Less(r[i].id, r[j].id) {
      assert r[i] == if i < at then index[i] else if i == at then e else index[i - 1];
      assert r[j] == if j < at then index[j] else if j == at then e else index[j - 1];
    }
  }

  ghost predicate AllParse(index: seq<Entry>, fingerprint: Request -> string) {
    forall i | 0 <= i < |index| :: Parses(index[i], fingerprint)
  }

  // ----- a run of adds -----

  datatype Limits = Limits(request: nat, response: nat)

  /** One call of add. */
  datatype Op = Op(request: Option<Request>, response: seq<byte>, closeAfterSend: bool, delayMs: int, replace: bool)

  ghost predicate AllDelaysParse(m: map<Request, Response>) {
    forall q | q in m :: DelayParses(m[q].delayMs)
  }

  /** add succeeds on a store that stands for m. */
  ghost predicate Taken(m: map<Request, Response>, op: Op, limits: Limits) {
    && op.request.Some? && |op.request.value.payload| <= limits.request && |op.response| <= limits.response
    && AllDelaysParse(m) && (op.replace || op.request.value !in m)
  }

  ghost function AfterAdd(m: map<Request, Response>, op: Op, limits: Limits): map<Request, Response> {
    if Taken(m, op, limits) then m[op.request.value := Response(op.response, op.closeAfterSend, op.delayMs)] else m
  }

  ghost function AfterAdds(ops: seq<Op>, limits: Limits): map<Request, Response> {
    if ops == [] then map[] else AfterAdd(AfterAdds(ops[..|ops| - 1], limits), ops[|ops| - 1], limits)
  }

  ghost predicate TakenAt(ops: seq<Op>, i: nat, limits: Limits)
    requires i < |ops|
  {
    Taken(AfterAdds(ops[..i], limits), ops[i], limits)
  }

  /** Call i stored something for q, and no later call did. */
  ghost predicate Decides(ops: seq<Op>, i: nat, q: Request, limits: Limits)
    requires i < |ops|
  {
    && TakenAt(ops, i, limits) && ops[i].request == Some(q)
    && forall j | i < j < |ops| :: TakenAt(ops, j, limits) ==> ops[j].request != Some(q)
  }

  lemma {:induction false} OneMoreAdd(ops: seq<Op>, limits: Limits)
    requires ops != []
    ensures forall i | 0 <= i < |ops| - 1 :: TakenAt(ops, i, limits) <==> TakenAt(ops[..|ops| - 1], i, limits)
    ensures forall i | 0 <= i < |ops| - 1 :: ops[i] == ops[..|ops| - 1][i]
  {
    hide Taken, AfterAdds;
    forall i | 0 <= i < |ops| - 1 ensures TakenAt(ops, i, limits) <==> TakenAt(ops[..|ops| - 1], i, limits) {
      assert ops[..|ops| - 1][..i] == ops[..i];
    }
  }

  /** The store answers with the last response that was taken for a request, and misses when there was none. */
  lemma {:induction false} LastAddWins(ops: seq<Op>, q: Request, limits: Limits)
    ensures q in AfterAdds(ops, limits) <==> exists i :: 0 <= i < |ops| && Decides(ops, i, q, limits)
    ensures forall i | 0 <= i < |ops| && Decides(ops, i, q, limits) ::
              q in AfterAdds(ops, limits)
              && AfterAdds(ops, limits)[q] == Response(ops[i].response, ops[i].closeAfterSend, ops[i].delayMs)
  {
    hide Decides, AfterAdds, Taken, TakenAt;
    if ops == [] {
      NothingAdded(limits);
    } else {
      var n := |ops| - 1;
      LastAddWins(ops[..n], q, limits);
      AfterLast(ops, q, limits);
      forall i | 0 <= i < n
        ensures Decides(ops, i, q, limits) <==>
                  Decides(ops[..n], i, q, limits) && !(TakenAt(ops, n, limits) && ops[n].request == Some(q))
        ensures ops[i] == ops[..n][i]
      {
        DecidesStill(ops, i, q, limits);
      }
    }
  }

  lemma {:induction false} NothingAdded(limits: Limits)
    ensures AfterAdds([], limits) == map[]
  {
  }

  /** What the last call makes of one request's answer. */
  lemma {:induction false} AfterLast(ops: seq<Op>, q: Request, limits: Limits)
    requires ops != []
    ensures var n, m := |ops| - 1, AfterAdds(ops, limits);
            && (Decides(ops, n, q, limits) <==> TakenAt(ops, n, limits) && ops[n].request == Some(q))
            && if TakenAt(ops, n, limits) && ops[n].request == Some(q) then
                 q in m && m[q] == Response(ops[n].response, ops[n].closeAfterSend, ops[n].delayMs)
               else
                 && (q in m <==> q in AfterAdds(ops[..n], limits))
                 && (q in m ==> m[q] == AfterAdds(ops[..n], limits)[q])
  {
  }

  lemma {:induction false} TakenLast(ops: seq<Op>, limits: Limits)
    requires ops != []
    ensures TakenAt(ops, |ops| - 1, limits) <==> Taken(AfterAdds(ops[..|ops| - 1], limits), ops[|ops| - 1], limits)
  {
  }

  lemma {:induction false} DecidesStill(ops: seq<Op>, i: nat, q: Request, limits: Limits)
    requires i < |ops| - 1
    ensures Decides(ops, i, q, limits) <==>
              Decides(ops[..|ops| - 1], i, q, limits)
              && !(TakenAt(ops, |ops| - 1, limits) && ops[|ops| - 1].request == Some(q))
  {
    hide TakenAt;
    OneMoreAdd(ops, limits);
  }

  /** The store loads exactly while no call that was taken had a delay outside the range. */
  lemma {:induction false} LoadsUnlessDelayed(ops: seq<Op>, limits: Limits)
    ensures AllDelaysParse(AfterAdds(ops, limits)) <==>
              forall i | 0 <= i < |ops| && TakenAt(ops, i, limits) :: 0 <= ops[i].delayMs <= 60000
  {
    if ops != [] {
      var n := |ops| - 1;
      LoadsUnlessDelayed(ops[..n], limits);
      OneMoreAdd(ops, limits);
      TakenLast(ops, limits);
      AddLoads(AfterAdds(ops[..n], limits), ops[n], limits);
      hide Taken, TakenAt, AllDelaysParse;
    }
  }

  lemma {:induction false} AddLoads(m: map<Request, Response>, op: Op, limits: Limits)
    ensures Taken(m, op, limits) ==>
              AllDelaysParse(m) && (AllDelaysParse(AfterAdd(m, op, limits)) <==> DelayParses(op.delayMs))
    ensures !Taken(m, op, limits) ==> AfterAdd(m, op, limits) == m
  {
    if Taken(m, op, limits) {
      assert AfterAdd(m, op, limits)[op.request.value].delayMs == op.delayMs;
    }
  }

  /** Once a delay outside the range was taken nothing is ever taken again. */
  lemma {:induction false} DelayBlocks(ops: seq<Op>, i: nat, j: nat, limits: Limits)
    requires i < j < |ops| && TakenAt(ops, i, limits) && !(0 <= ops[i].delayMs <= 60000)
    ensures !TakenAt(ops, j, limits)
  {
    LoadsUnlessDelayed(ops[..j], limits);
    assert ops[..j][..i] == ops[..i];
    assert TakenAt(ops[..j], i, limits);
  }

  /** An input: one add with a delay above the limit is taken, and the store can no longer be read. */
  lemma {:induction false} TooLongDelay(q: Request, limits: Limits)
    requires |q.payload| <= limits.request
    ensures var ops := [Op(Some(q), [], false, 60001, false)];
            TakenAt(ops, 0, limits) && !AllDelaysParse(AfterAdds(ops, limits))
  {
    var ops := [Op(Some(q), [], false, 60001, false)];
    assert ops[..0] == [];
    LoadsUnlessDelayed(ops, limits);
  }

  class Store {
    /** A request's fingerprint: any function that tells requests apart. */
    const fingerprint: Request -> string
    const maxRequest: nat
    const maxResponse: nat
    var index: seq<Entry>
    var requests: map<string, seq<byte>>
    var responses: map<seq<byte>, seq<byte>>

    constructor (fingerprint: Request -> string, maxRequest: nat, maxResponse: nat)
      requires Injective(fingerprint)
      ensures Valid() && Loadable() && Contents() == map[]
      ensures this.fingerprint == fingerprint && this.maxRequest == maxRequest && this.maxResponse == maxResponse
    {
      this.fingerprint, this.maxRequest, this.maxResponse := fingerprint, maxRequest, maxResponse;
      index, requests, responses := [], map[], map[];
    }

    ghost function Contents(): map<Request, Response>
      reads this
    {
      MapOf(index)
    }

    /** The index is sorted without repetition, ids are fingerprints, and every blob is there and has its own digest. */
    ghost predicate Valid()
      reads this
    {
      && Injective(fingerprint) && Ascending(index) && Identified(index, fingerprint)
      && (forall i | 0 <= i < |index| :: index[i].digest in responses && index[i].size == |index[i].digest|)
      && (forall d | d in responses :: responses[d] == d)
      && (forall q: Request | fingerprint(q) in requests :: requests[fingerprint(q)] == q.payload)
    }

    /** Every response stored can be read back: its delay is one the parser takes. */
    ghost predicate Loadable()
      reads this
    {
      forall q | q in Contents() :: DelayParses(Contents()[q].delayMs)
    }

    lemma {:induction false} LoadableIsParsing()
      requires Valid()
      ensures Loadable() <==> AllParse(index, fingerprint)
    {
      if Loadable() {
        forall i | 0 <= i < |index| ensures Parses(index[i], fingerprint) {
          MapEntries(index, fingerprint, index[i].request);
          assert index[i].request in Contents();
        }
      }
      if AllParse(index, fingerprint) {
        forall q | q in Contents() ensures DelayParses(Contents()[q].delayMs) {
          MapEntries(index, fingerprint, q);
          var i :| 0 <= i < |index| && index[i].id == fingerprint(q);
          assert Parses(index[i], fingerprint);
        }
      }
    }

    method LoadEntries() returns (r: Result<seq<Entry>, StoreError>)
      ensures r.Ok? <==> AllParse(index, fingerprint)
      ensures r.Ok? ==> r.value == index
      ensures r.Err? ==> r.error == BadIndex
    {
      for i := 0 to |index|
        invariant forall k | 0 <= k < i :: Parses(index[k], fingerprint)
      {
        if !Parses(index[i], fingerprint) {
          return Err(BadIndex);
        }
      }
      r := Ok(index);
    }

    method WriteResponse(bytes: seq<byte>) returns (ok: bool)
      modifies this`responses
      ensures ok <==> bytes !in old(responses) || old(responses)[bytes] == bytes
      ensures responses == if bytes in old(responses) then old(responses) else old(responses)[bytes := bytes]
    {
      if bytes in responses {
        return responses[bytes] == bytes;
      }
      responses := responses[bytes := bytes];
      ok := true;
    }

    method WriteRequest(id: string, bytes: seq<byte>) returns (ok: bool)
      modifies this`requests
      ensures ok <==> id !in old(requests) || old(requests)[id] == bytes
      ensures requests == if id in old(requests) then old(requests) else old(requests)[id := bytes]
    {
      if id in requests {
        return requests[id] == bytes;
      }
      requests := requests[id := bytes];
      ok := true;
    }

    /** Both blobs, written unless they are there; in a valid store neither can be there with other bytes. */
    method WriteBlobs(q: Request, response: seq<byte>) returns (ok: bool)
      requires Valid()
      modifies this`requests, this`responses
      ensures Valid() && ok && response in responses
    {
      hide Ascending;
      ghost var before := responses;
      var wroteRequest := WriteRequest(fingerprint(q), q.payload);
      var wroteResponse := WriteResponse(response);
      ok := wroteRequest && wroteResponse;
      assert forall d | d in responses :: d in before || d == response;
    }

    /** The index with this entry in the place of any other of its id. */
    method PutEntry(e: Entry)
      requires Valid() && e.id == fingerprint(e.request) && e.digest in responses && e.size == |e.digest|
      modifies this`index
      ensures Valid() && Contents() == old(Contents())[e.request := ToResponse(e)]
    {
      hide Ascending, Identified, MapOf, Injective;
      ghost var before := index;
      WithoutIs(index, e.id);
      NoSuchId(Without(index, e.id), e.id);
      var updated := InsertEntry(Without(index, e.id), e);
      Updated(before, updated, e, fingerprint);
      index := updated;
    }

    /** add: an absent request is one that does not normalize. Whatever the delay, it is stored. */
    method Add(request: Option<Request>, response: seq<byte>, closeAfterSend: bool, delayMs: int, replace: bool)
      returns (r: Result<Entry, StoreError>)
      requires Valid()
      modifies this
      ensures Valid()
      ensures r.Ok? <==>
                && request.Some? && |request.value.payload| <= maxRequest && |response| <= maxResponse
                && old(Loadable()) && (replace || request.value !in old(Contents()))
      ensures Contents() == if r.Ok? then old(Contents())[request.value := Response(response, closeAfterSend, delayMs)]
              else old(Contents())
      ensures r.Ok? ==> (Loadable() <==> 0 <= delayMs <= 60000)
      ensures r.Ok? ==> r.value == Entry(fingerprint(request.value), request.value, response, |response|, closeAfterSend, delayMs)
      ensures r.Err? ==> index == old(index)
      ensures r.Err? ==>
                && (r.error == BadRequest <==> request.None?)
                && (r.error == TooLarge <==>
                      request.Some? && (|request.value.payload| > maxRequest || |response| > maxResponse))
                && r.error in {BadRequest, TooLarge, BadIndex, EntryExists} && (r.error == BadIndex ==> !old(Loadable()))
                && (r.error == EntryExists ==> !replace && old(Loadable()) && request.value in old(Contents()))
    {
      hide Ascending, Identified, MapOf;
      LoadableIsParsing();
      if request.None? {
        return Err(BadRequest);
      }
      var q := request.value;
      if |q.payload| > maxRequest || |response| > maxResponse {
        return Err(TooLarge);
      }
      var id := fingerprint(q);
      var loaded := LoadEntries();
      if loaded.Err? {
        return Err(loaded.error);
      }
      MapEntries(index, fingerprint, q);
      if HasId(loaded.value, id) && !replace {
        return Err(EntryExists);
      }
      var wrote := WriteBlobs(q, response);
      var e := Entry(id, q, response, |response|, closeAfterSend, delayMs);
      PutEntry(e);
      assert q in Contents() && Contents()[q].delayMs == delayMs;
      r := Ok(e);
    }

    /** A run of add calls on a new store; one that is refused changes nothing. */
    method AddAll(ops: seq<Op>)
      requires Valid() && Contents() == map[]
      modifies this
      ensures Valid() && Contents() == AfterAdds(ops, Limits(maxRequest, maxResponse))
      ensures Loadable() <==> AllDelaysParse(AfterAdds(ops, Limits(maxRequest, maxResponse)))
    {
      hide Ascending, Identified, MapOf, Injective;
      for n := 0 to |ops|
        invariant Valid() && Contents() == AfterAdds(ops[..n], Limits(maxRequest, maxResponse))
      {
        assert ops[..n + 1][..n] == ops[..n];
        var r := Add(ops[n].request, ops[n].response, ops[n].closeAfterSend, ops[n].delayMs, ops[n].replace);
      }
      assert ops[..|ops|] == ops;
    }

    /** lookup: the last response stored for the request, or a miss. */
    method Lookup(request: Option<Request>) returns (r: Result<Option<Response>, StoreError>)
      requires Valid()
      ensures r.Ok? <==> request.Some? && Loadable()
      ensures r.Err? ==> r.error == if request.None? then BadRequest else BadIndex
      ensures r.Ok? ==> r.value == if request.value in Contents() then Some(Contents()[request.value]) else None
    {
      LoadableIsParsing();
      if request.None? {
        return Err(BadRequest);
      }
      var id := fingerprint(request.value);
      MapEntries(index, fingerprint, request.value);
      var loaded := LoadEntries();
      if loaded.Err? {
        return Err(loaded.error);
      }
      var entries := loaded.value;
      for i := 0 to |entries|
        invariant forall k | 0 <= k < i :: entries[k].id != id
      {
        if entries[i].id == id {
          if entries[i].digest !in responses {
            return Err(MissingBlob);
          }
          var bytes := responses[entries[i].digest];
          if |bytes| != entries[i].size {
            return Err(SizeMismatch);
          }
          if bytes != entries[i].digest {
            return Err(DigestMismatch);
          }
          return Ok(Some(Response(bytes, entries[i].closeAfterSend, entries[i].delayMs)));
        }
      }
      r := Ok(None);
    }

    /** validate. */
    method Validate() returns (r: Result<nat, StoreError>)
      requires Valid()
      ensures r.Ok? <==> Loadable()
      ensures r.Ok? ==> r.value == |index|
      ensures r.Err? ==> r.error == BadIndex
    {
      LoadableIsParsing();
      var loaded := LoadEntries();
      if loaded.Err? {
        return Err(loaded.error);
      }
      var entries := loaded.value;
      for i := 0 to |entries|
      {
        if entries[i].digest !in responses {
          return Err(MissingBlob);
        }
        var bytes := responses[entries[i].digest];
        if |bytes| != entries[i].size {
          return Err(SizeMismatch);
        }
        if bytes != entries[i].digest {
          return Err(DigestMismatch);
        }
      }
      r := Ok(|entries|);
    }
  }

  lemma {:induction false} NoSuchId(index: seq<Entry>, id: string)
    requires forall e | e in index :: e.id != id
    ensures !HasId(index, id)
  {
    assert forall i | 0 <= i < |index| :: index[i] in index;
  }

  lemma {:induction false} Updated(before: seq<Entry>, after: seq<Entry>, e: Entry, fingerprint: Request -> string)
    requires Injective(fingerprint) && Ascending(before) && Identified(before, fingerprint) && Ascending(after)
    requires e.id == fingerprint(e.request)
    requires forall x :: x in after <==> x in Without(before, e.id) || x == e
    ensures Identified(after, fingerprint) && MapOf(after) == MapOf(before)[e.request := ToResponse(e)]
    ensures forall i | 0 <= i < |after| :: after[i] == e || after[i] in before
  {
    WithoutIs(before, e.id);
    forall i | 0 <= i < |after| ensures after[i].id == fingerprint(after[i].request) && (after[i] == e || after[i] in before) {
      assert after[i] in after;
      if after[i] != e {
        var k :| 0 <= k < |before| && before[k] == after[i];
      }
    }
    SameMap(before, after, e, fingerprint);
  }
}
