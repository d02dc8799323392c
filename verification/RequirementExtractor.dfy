/** Accumulating contributions into runtime requirements. */
module RequirementExtractor {
  import opened Wrappers

  datatype Kind = Filesystem | Device | Network | Library | SyscallKind | Execution

  datatype Status = Unmet | Provided | UnknownStatus

  datatype Blocking = Likely | Possible | Unlikely | UnknownBlocking

  datatype Evidence = Evidence(source: string, summary: string, raw: Option<string>, eventIndex: Option<int>)

  datatype Key = Key(kind: Kind, operation: string, resource: string)

  /** One call of _add. */
  datatype Contribution = Contribution(
    key: Key, status: Status, blocking: Blocking, confidence: real, repairable: bool, errno: Option<string>,
    evidence: Evidence, details: map<string, string>)

  datatype Requirement = Requirement(
    status: Status, blocking: Blocking, confidence: real, repairable: bool, errno: Option<string>, evidence: seq<Evidence>,
    details: map<string, string>)

  type Requirements = map<Key, Requirement>

  function StatusRank(s: Status): nat {
    match s
    case UnknownStatus => 0
    case Provided => 1
    case Unmet => 2
  }

  function BlockingRank(b: Blocking): nat {
    match b
    case Unlikely => 0
    case UnknownBlocking => 1
    case Possible => 2
    case Likely => 3
  }

  function MergeStatus(current: Status, incoming: Status): Status {
    if StatusRank(current) >= StatusRank(incoming) then current else incoming
  }

  function MergeBlocking(current: Blocking, incoming: Blocking): Blocking {
    if BlockingRank(current) >= BlockingRank(incoming) then current else incoming
  }

  function Bounded(confidence: real): (r: real)
    ensures 0.0 <= r <= 1.0
    ensures 0.0 <= confidence <= 1.0 ==> r == confidence
  {
    if confidence < 0.0 then 0.0 else if confidence > 1.0 then 1.0 else confidence
  }

  function Max(a: real, b: real): real {
    if a >= b then a else b
  }

  function First(c: Contribution): Requirement {
    Requirement(c.status, c.blocking, Bounded(c.confidence), c.repairable, c.errno, [c.evidence], c.details)
  }

  function Again(r: Requirement, c: Contribution, maxEvidence: nat): Requirement {
    Requirement(
      MergeStatus(r.status, c.status), MergeBlocking(r.blocking, c.blocking), Max(r.confidence, Bounded(c.confidence)),
      r.repairable || c.repairable, if r.errno.None? then c.errno else r.errno,
      if c.evidence !in r.evidence && |r.evidence| < maxEvidence then r.evidence + [c.evidence] else r.evidence,
      r.details + c.details)
  }

  function Added(m: Requirements, c: Contribution, maxEvidence: nat): Requirements {
    m[c.key := if c.key in m then Again(m[c.key], c, maxEvidence) else First(c)]
  }

  function Folded(cs: seq<Contribution>, maxEvidence: nat): Requirements {
    if cs == [] then map[] else Added(Folded(cs[..|cs| - 1], maxEvidence), cs[|cs| - 1], maxEvidence)
  }

  class Extractor {
    const maxEvidence: nat
    var requirements: Requirements

    constructor (maxEvidence: nat)
      ensures this.maxEvidence == maxEvidence && requirements == map[]
    {
      this.maxEvidence := maxEvidence;
      requirements := map[];
    }

    /** _add. */
    method Add(c: Contribution)
      modifies this
      ensures requirements == Added(old(requirements), c, maxEvidence)
    {
      if c.key !in requirements {
        requirements := requirements[c.key := First(c)];
        return;
      }
      var existing := requirements[c.key];
      existing := existing.(status := MergeStatus(existing.status, c.status));
      existing := existing.(blocking := MergeBlocking(existing.blocking, c.blocking));
      existing := existing.(confidence := Max(existing.confidence, Bounded(c.confidence)));
      existing := existing.(repairable := existing.repairable || c.repairable);
      if existing.errno.None? {
        existing := existing.(errno := c.errno);
      }
      existing := existing.(details := existing.details + c.details);
      if c.evidence !in existing.evidence && |existing.evidence| < maxEvidence {
        existing := existing.(evidence := existing.evidence + [c.evidence]);
      }
      requirements := requirements[c.key := existing];
    }

    /** A run of _add calls on a cleared extractor. */
    method AddAll(cs: seq<Contribution>)
      modifies this
      ensures requirements == Folded(cs, maxEvidence)
    {
      requirements := map[];
      for n := 0 to |cs|
        invariant requirements == Folded(cs[..n], maxEvidence)
      {
        assert cs[..n + 1][..n] == cs[..n];
        Add(cs[n]);
      }
      assert cs[..|cs|] == cs;
    }
  }

  // ----- the fold is a join -----

  /** r is the least upper bound of what the contributions say about the key. */
  ghost predicate Joins(cs: seq<Contribution>, key: Key, r: Requirement) {
    && (forall c | c in cs && c.key == key ::
          && StatusRank(c.status) <= StatusRank(r.status) && BlockingRank(c.blocking) <= BlockingRank(r.blocking)
          && Bounded(c.confidence) <= r.confidence && (c.repairable ==> r.repairable))
    && (exists c :: c in cs && c.key == key && c.status == r.status)
    && (exists c :: c in cs && c.key == key && c.blocking == r.blocking)
    && (exists c :: c in cs && c.key == key && Bounded(c.confidence) == r.confidence)
    && (r.repairable ==> exists c :: c in cs && c.key == key && c.repairable)
  }

  predicate Mentions(cs: seq<Contribution>, key: Key) {
    exists c :: c in cs && c.key == key
  }

  lemma {:induction false} JoinsMore(cs: seq<Contribution>, key: Key, r: Requirement, c: Contribution, maxEvidence: nat)
    requires Joins(cs, key, r)
    ensures c.key == key ==> Joins(cs + [c], key, Again(r, c, maxEvidence))
    ensures c.key != key ==> Joins(cs + [c], key, r)
  {
    var all := cs + [c];
    assert forall x :: x in all <==> x in cs || x == c;
    var a :| a in cs && a.key == key && a.status == r.status;
    var b :| b in cs && b.key == key && b.blocking == r.blocking;
    var d :| d in cs && d.key == key && Bounded(d.confidence) == r.confidence;
    assert a in all && b in all && d in all && c in all;
    if r.repairable {
      var e :| e in cs && e.key == key && e.repairable;
      assert e in all;
    }
  }

  lemma {:induction false} FoldJoins(cs: seq<Contribution>, maxEvidence: nat, key: Key)
    ensures key in Folded(cs, maxEvidence) <==> Mentions(cs, key)
    ensures key in Folded(cs, maxEvidence) ==> Joins(cs, key, Folded(cs, maxEvidence)[key])
  {
    if cs != [] {
      var n := |cs| - 1;
      var init, c := cs[..n], cs[n];
      assert cs == init + [c];
      assert forall x :: x in cs <==> x in init || x == c;
      FoldJoins(init, maxEvidence, key);
      if key in Folded(init, maxEvidence) {
        JoinsMore(init, key, Folded(init, maxEvidence)[key], c, maxEvidence);
      } else if key == c.key {
        FirstJoins(init, c);
      }
    }
  }

  lemma {:induction false} FirstJoins(init: seq<Contribution>, c: Contribution)
    requires !Mentions(init, c.key)
    ensures Joins(init + [c], c.key, First(c))
  {
    var all := init + [c];
    assert forall x :: x in all <==> x in init || x == c;
    assert c in all;
  }

  /** A least upper bound is what it is whatever the order. */
  lemma {:induction false} JoinIsUnique(a: seq<Contribution>, b: seq<Contribution>, key: Key, r: Requirement, s: Requirement)
    requires Joins(a, key, r) && Joins(b, key, s) && forall c :: c in a <==> c in b
    ensures r.status == s.status && r.blocking == s.blocking && r.confidence == s.confidence && r.repairable == s.repairable
  {
    HalfJoin(a, b, key, r, s);
    HalfJoin(b, a, key, s, r);
  }

  lemma {:induction false} HalfJoin(a: seq<Contribution>, b: seq<Contribution>, key: Key, r: Requirement, s: Requirement)
    requires Joins(a, key, r) && Joins(b, key, s) && forall c :: c in a <==> c in b
    ensures StatusRank(r.status) <= StatusRank(s.status) && BlockingRank(r.blocking) <= BlockingRank(s.blocking)
    ensures r.confidence <= s.confidence && (r.repairable ==> s.repairable)
  {
    var x :| x in a && x.key == key && x.status == r.status;
    var y :| y in a && y.key == key && y.blocking == r.blocking;
    var z :| z in a && z.key == key && Bounded(z.confidence) == r.confidence;
    assert x in b && y in b && z in b;
    if r.repairable {
      var w :| w in a && w.key == key && w.repairable;
      assert w in b;
    }
  }

  /** Reordering contributions changes no key, status, blocking, confidence or repairability. */
  lemma {:induction false} OrderDoesNotMatter(a: seq<Contribution>, b: seq<Contribution>, maxEvidence: nat, key: Key)
    requires multiset(a) == multiset(b)
    ensures key in Folded(a, maxEvidence) <==> key in Folded(b, maxEvidence)
    ensures key in Folded(a, maxEvidence) ==>
              var r, s := Folded(a, maxEvidence)[key], Folded(b, maxEvidence)[key];
              r.status == s.status && r.blocking == s.blocking && r.confidence == s.confidence && r.repairable == s.repairable
  {
    forall c ensures c in a <==> c in b {
      assert c in a <==> c in multiset(a);
      assert c in b <==> c in multiset(b);
    }
    FoldJoins(a, maxEvidence, key);
    FoldJoins(b, maxEvidence, key);
    if key in Folded(a, maxEvidence) {
      JoinIsUnique(a, b, key, Folded(a, maxEvidence)[key], Folded(b, maxEvidence)[key]);
    }
  }

  predicate SaysStatus(cs: seq<Contribution>, key: Key, status: Status) {
    exists c :: c in cs && c.key == key && c.status == status
  }

  predicate SaysBlocking(cs: seq<Contribution>, key: Key, blocking: Blocking) {
    exists c :: c in cs && c.key == key && c.blocking == blocking
  }

  /** Unmet outweighs provided, and both outweigh not knowing. */
  lemma {:induction false} MergedStatus(cs: seq<Contribution>, maxEvidence: nat, key: Key)
    requires key in Folded(cs, maxEvidence)
    ensures Folded(cs, maxEvidence)[key].status ==
              if SaysStatus(cs, key, Unmet) then Unmet
              else if SaysStatus(cs, key, Provided) then Provided else UnknownStatus
  {
    FoldJoins(cs, maxEvidence, key);
    hide Folded;
  }

  /** Likely outweighs possible, possible not knowing, and that unlikely. */
  lemma {:induction false} MergedBlocking(cs: seq<Contribution>, maxEvidence: nat, key: Key)
    requires key in Folded(cs, maxEvidence)
    ensures Folded(cs, maxEvidence)[key].blocking ==
              if SaysBlocking(cs, key, Likely) then Likely
              else if SaysBlocking(cs, key, Possible) then Possible
              else if SaysBlocking(cs, key, UnknownBlocking) then UnknownBlocking else Unlikely
  {
    FoldJoins(cs, maxEvidence, key);
    hide Folded;
  }

  /** The details are the last ones given under each name. */
  lemma {:induction false} DetailsAreLast(cs: seq<Contribution>, maxEvidence: nat, key: Key, name: string)
    requires key in Folded(cs, maxEvidence)
    ensures name in Folded(cs, maxEvidence)[key].details <==> exists i :: 0 <= i < |cs| && GivesDetail(cs[i], key, name)
    ensures forall i | 0 <= i < |cs| && GivesDetail(cs[i], key, name)
                       && forall j | i < j < |cs| :: !GivesDetail(cs[j], key, name) ::
              name in Folded(cs, maxEvidence)[key].details
              && Folded(cs, maxEvidence)[key].details[name] == cs[i].details[name]
  {
    FoldedStep(cs, maxEvidence, key);
    hide Folded;
    if key in Folded(cs[..|cs| - 1], maxEvidence) {
      DetailsAreLast(cs[..|cs| - 1], maxEvidence, key, name);
    }
  }

  /** What the last contribution makes of a key. */
  lemma {:induction false} FoldedStep(cs: seq<Contribution>, maxEvidence: nat, key: Key)
    requires key in Folded(cs, maxEvidence)
    ensures cs != []
    ensures var init, c := cs[..|cs| - 1], cs[|cs| - 1];
            && (forall i | 0 <= i < |init| :: init[i] == cs[i])
            && (if key in Folded(init, maxEvidence) then
                  Folded(cs, maxEvidence)[key] ==
                    if c.key == key then Again(Folded(init, maxEvidence)[key], c, maxEvidence) else Folded(init, maxEvidence)[key]
                else
                  c.key == key && Folded(cs, maxEvidence)[key] == First(c) && forall i | 0 <= i < |init| :: cs[i].key != key)
  {
    var init := cs[..|cs| - 1];
    FoldJoins(init, maxEvidence, key);
    assert forall i | 0 <= i < |init| :: cs[i] in init;
  }

  predicate GivesDetail(c: Contribution, key: Key, name: string) {
    c.key == key && name in c.details
  }

  /** Evidence is kept once each, in the order it came, until there is as much as is kept. */
  lemma {:induction false} EvidenceKept(cs: seq<Contribution>, maxEvidence: nat, key: Key)
    requires key in Folded(cs, maxEvidence) && maxEvidence > 0
    ensures var kept := Folded(cs, maxEvidence)[key].evidence;
            && 0 < |kept| <= maxEvidence && NoneTwice(kept)
            && (forall e | e in kept :: exists i :: 0 <= i < |cs| && Brings(cs[i], key, e))
            && (forall i | 0 <= i < |cs| && cs[i].key == key :: |kept| == maxEvidence || cs[i].evidence in kept)
  {
    FoldedStep(cs, maxEvidence, key);
    hide Folded;
    var n := |cs| - 1;
    var init := cs[..n];
    if key in Folded(init, maxEvidence) {
      EvidenceKept(init, maxEvidence, key);
      EvidenceGrows(cs, init, Folded(init, maxEvidence)[key].evidence, Folded(cs, maxEvidence)[key].evidence, key);
    } else {
      assert Brings(cs[n], key, cs[n].evidence);
    }
  }

  lemma {:induction false} EvidenceGrows(
    cs: seq<Contribution>, init: seq<Contribution>, before: seq<Evidence>, kept: seq<Evidence>, key: Key)
    requires cs != [] && init == cs[..|cs| - 1]
    requires forall e | e in before :: exists i :: 0 <= i < |init| && Brings(init[i], key, e)
    requires kept == before || (cs[|cs| - 1].key == key && kept == before + [cs[|cs| - 1].evidence])
    ensures forall e | e in kept :: exists i :: 0 <= i < |cs| && Brings(cs[i], key, e)
    ensures forall e | e in before :: e in kept
  {
    forall e | e in kept ensures exists i :: 0 <= i < |cs| && Brings(cs[i], key, e) {
      if e in before {
        var i :| 0 <= i < |init| && Brings(init[i], key, e);
        assert Brings(cs[i], key, e);
      } else {
        assert Brings(cs[|cs| - 1], key, e);
      }
    }
  }

  predicate Brings(c: Contribution, key: Key, e: Evidence) {
    c.key == key && c.evidence == e
  }

  predicate NoneTwice(kept: seq<Evidence>) {
    forall i, j | 0 <= i < j < |kept| :: kept[i] != kept[j]
  }

  // ----- the errno -----

  /** Two contributions to the key name different errnos. */
  predicate ErrnosDiffer(cs: seq<Contribution>, key: Key) {
    exists i, j :: 0 <= i < |cs| && 0 <= j < |cs| && Names(cs[i], key) && Names(cs[j], key) && cs[i].errno != cs[j].errno
  }

  predicate Names(c: Contribution, key: Key) {
    c.key == key && c.errno.Some?
  }

  /** The recorded errno is the first one named, and is missing only when none was. */
  lemma {:induction false} ErrnoIsFirst(cs: seq<Contribution>, maxEvidence: nat, key: Key)
    requires key in Folded(cs, maxEvidence)
    ensures var errno := Folded(cs, maxEvidence)[key].errno;
            if errno.None? then forall i | 0 <= i < |cs| :: !Names(cs[i], key)
            else exists i :: 0 <= i < |cs| && Names(cs[i], key) && cs[i].errno == errno
                             && forall j | 0 <= j < i :: !Names(cs[j], key)
  {
    FoldedStep(cs, maxEvidence, key);
    hide Folded;
    var n := |cs| - 1;
    if key in Folded(cs[..n], maxEvidence) {
      ErrnoIsFirst(cs[..n], maxEvidence, key);
    }
  }

  /** The contributions with the i-th in front. */
  function Fronted(cs: seq<Contribution>, i: nat): (r: seq<Contribution>)
    requires i < |cs|
    ensures multiset(r) == multiset(cs)
  {
    assert cs == cs[..i] + [cs[i]] + cs[i + 1..];
    [cs[i]] + cs[..i] + cs[i + 1..]
  }

  lemma {:induction false} FrontedErrno(cs: seq<Contribution>, maxEvidence: nat, key: Key, i: nat)
    requires i < |cs| && Names(cs[i], key)
    ensures key in Folded(Fronted(cs, i), maxEvidence)
    ensures Folded(Fronted(cs, i), maxEvidence)[key].errno == cs[i].errno
  {
    var r := Fronted(cs, i);
    assert r[0] == cs[i] && r[0] in r;
    FoldJoins(r, maxEvidence, key);
    ErrnoIsFirst(r, maxEvidence, key);
  }

  /** Reordering leaves a key's errno alone exactly when the contributions to it name no two different ones. */
  lemma {:induction false} ErrnoUnlessTheyDiffer(a: seq<Contribution>, maxEvidence: nat, key: Key)
    requires key in Folded(a, maxEvidence)
    ensures (forall b | multiset(b) == multiset(a) :: SameErrno(a, b, maxEvidence, key)) <==> !ErrnosDiffer(a, key)
  {
    hide Folded, Names;
    if ErrnosDiffer(a, key) {
      var i, j :| 0 <= i < |a| && 0 <= j < |a| && Names(a[i], key) && Names(a[j], key) && a[i].errno != a[j].errno;
      FrontedErrno(a, maxEvidence, key, i);
      FrontedErrno(a, maxEvidence, key, j);
      assert !SameErrno(a, Fronted(a, i), maxEvidence, key) || !SameErrno(a, Fronted(a, j), maxEvidence, key);
    } else {
      forall b | multiset(b) == multiset(a) ensures SameErrno(a, b, maxEvidence, key) {
        AgreedErrno(a, b, maxEvidence, key);
      }
    }
  }

  lemma {:induction false} AgreedErrno(a: seq<Contribution>, b: seq<Contribution>, maxEvidence: nat, key: Key)
    requires key in Folded(a, maxEvidence) && multiset(b) == multiset(a) && !ErrnosDiffer(a, key)
    ensures SameErrno(a, b, maxEvidence, key)
  {
    hide Folded, Names;
    OrderDoesNotMatter(a, b, maxEvidence, key);
    ErrnoIsFirst(a, maxEvidence, key);
    ErrnoIsFirst(b, maxEvidence, key);
    var r, t := Folded(a, maxEvidence)[key].errno, Folded(b, maxEvidence)[key].errno;
    if r.Some? {
      var i :| 0 <= i < |a| && Names(a[i], key) && a[i].errno == r;
      var k := Placed(b, a, i);
      assert Names(b[k], key);
    }
    if t.Some? {
      var i :| 0 <= i < |b| && Names(b[i], key) && b[i].errno == t;
      var k := Placed(a, b, i);
      assert Names(a[k], key) && a[k].errno == t;
    }
  }

  lemma {:induction false} Placed(a: seq<Contribution>, b: seq<Contribution>, i: nat) returns (k: nat)
    requires multiset(b) == multiset(a) && i < |b|
    ensures k < |a| && a[k] == b[i]
  {
    assert b[i] in multiset(a);
    k :| k < |a| && a[k] == b[i];
  }

  predicate SameErrno(a: seq<Contribution>, b: seq<Contribution>, maxEvidence: nat, key: Key) {
    && key in Folded(a, maxEvidence) && key in Folded(b, maxEvidence)
    && Folded(b, maxEvidence)[key].errno == Folded(a, maxEvidence)[key].errno
  }

  /** An input on which the errno depends on the order. */
  lemma {:induction false} ErrnoDependsOnOrder(maxEvidence: nat) returns (a: seq<Contribution>, b: seq<Contribution>, key: Key)
    ensures multiset(a) == multiset(b) && key in Folded(a, maxEvidence) && key in Folded(b, maxEvidence)
    ensures Folded(a, maxEvidence)[key].errno != Folded(b, maxEvidence)[key].errno
  {
    key := Key(Filesystem, "path_exists", "/x");
    var e := Evidence("syscall", "open", None, None);
    var c := Contribution(key, Unmet, Likely, 1.0, true, Some("ENOENT"), e, map[]);
    var d := c.(errno := Some("ENOTDIR"));
    a, b := [c, d], [d, c];
    assert a[..1] == [c] && b[..1] == [d] && a[..1][..0] == [] && b[..1][..0] == [];
    assert Folded([c], maxEvidence) == Added(Folded([], maxEvidence), c, maxEvidence);
    assert Folded([d], maxEvidence) == Added(Folded([], maxEvidence), d, maxEvidence);
  }

  // ----- how blocking a failure was -----

  datatype Event = Signal | ProcessExit(returnValue: Option<int>, outcome: Option<int>) | OtherEvent

  function ExitCode(e: Event): Option<int>
    requires e.ProcessExit?
  {
    if e.returnValue.Some? then e.returnValue else e.outcome
  }

  predicate Decides(e: Event) {
    e.Signal? || e.ProcessExit?
  }

  /** Event k is the first signal or exit within the window after index. */
  predicate FirstDecider(events: seq<Event>, index: nat, window: nat, k: nat) {
    && index < k < |events| && k <= index + window && Decides(events[k])
    && forall j | index < j < k :: !Decides(events[j])
  }

  /** _blocking_after: the first signal or exit in the window decides; without one nothing is known. */
  method BlockingAfter(events: seq<Event>, index: nat, window: nat) returns (r: Blocking)
    requires index < |events|
    ensures forall k: nat | FirstDecider(events, index, window, k) ::
              && (r == Likely <==> events[k].Signal? || (ExitCode(events[k]).Some? && ExitCode(events[k]).value != 0))
              && r in {Likely, Possible}
    ensures (forall k: nat :: !FirstDecider(events, index, window, k)) ==> r == UnknownBlocking
  {
    var end := if index + 1 + window < |events| then index + 1 + window else |events|;
    for k := index + 1 to end
      invariant forall j | index < j < k :: !Decides(events[j])
    {
      if events[k].Signal? {
        assert FirstDecider(events, index, window, k);
        return Likely;
      }
      if events[k].ProcessExit? {
        assert FirstDecider(events, index, window, k);
        var code := ExitCode(events[k]);
        return if code.Some? && code.value != 0 then Likely else Possible;
      }
    }
    r := UnknownBlocking;
  }
}
