/**
 * The vitals service: lists a patient's vitals within a date window, selects the
 * most recent vital of each type, and builds the record sent to the MVDM store
 * when a vital is created.
 *
 * Dates are integer timestamps (milliseconds); the MVDM store is an abstract
 * collaborator (`mvdmList`, `mvdmCreate`) and the clock is a parameter (`now`).
 */
module VitalsService {
  import opened Wrappers

  /** A vital as the MVDM store returns it; only the fields the service reads are kept. */
  datatype Vital = Vital(id: string, typeLabel: string, taken: int)

  /** The service context handed to the constructor. */
  datatype ServiceContext = ServiceContext(userId: Option<string>, facilityId: Option<string>, patientId: Option<string>)

  /** Arguments of `create`; absent fields are `None`. */
  datatype CreateArgs = CreateArgs(
    value: Option<string>,
    supplementalO2: Option<string>,
    vitalType: Option<string>,
    hospitalLocation: Option<string>,
    enteredBy: Option<string>,
    vitalsTakenDateTime: Option<string>,
    vitalsEnteredDateTime: Option<string>,
    qualifiers: Option<seq<string>>)

  /** A `{id: q}` qualifier record. */
  datatype QualifierRef = QualifierRef(id: string)

  /** The object passed to the MVDM store's `create`. */
  datatype VitalRequest = VitalRequest(
    kind: string,
    value: Option<string>,
    supplementalO2: Option<string>,
    vitalType: Option<string>,
    hospitalLocation: Option<string>,
    enteredBy: Option<string>,
    vitalsTakenDateTime: Option<string>,
    vitalsEnteredDateTime: Option<string>,
    qualifier: Option<seq<QualifierRef>>)

  /** The payload of a service event. */
  datatype EventData = Results(results: seq<Vital>) | Response(response: string)

  /** A service event `(eventName, 'Vital', data)`. */
  datatype ServiceEvent = ServiceEvent(name: string, domain: string, data: EventData)

  const VitalDomain := "Vital"
  const MissingPatientError := "Vitals service requires a patientId"

  /** 1900-01-01T00:00:00 (taken as UTC) in milliseconds: "before records were collected". */
  const EarliestRecordTime: int := -2208988800000

  // ---------------------------------------------------------------------------
  // Construction
  // ---------------------------------------------------------------------------

  /** The constructor's guard: a missing or empty (falsy) patient id is an error. */
  function PatientIdOf(ctx: ServiceContext): (r: Result<string, string>)
    ensures r.Success? <==> ctx.patientId.Some? && ctx.patientId.value != ""
    ensures r.Success? ==> r.value == ctx.patientId.value
    ensures r.Failure? ==> r.error == MissingPatientError
  {
    match ctx.patientId
    case Some(id) => if id == "" then Failure(MissingPatientError) else Success(id)
    case None => Failure(MissingPatientError)
  }

  // ---------------------------------------------------------------------------
  // The list window
  // ---------------------------------------------------------------------------

  /** A closed time window `[lo, hi]`. */
  datatype Window = Window(lo: int, hi: int)

  /**
   * The bounds `list` uses once its defaults are applied: a given bound is
   * kept; a missing start is 1900-01-01; a missing end is the start, or `now`
   * when neither bound is given.
   */
  function WindowBounds(startDate: Option<int>, endDate: Option<int>, now: int): (w: Window)
    ensures startDate.Some? ==> w.lo == startDate.value
    ensures startDate.None? ==> w.lo == EarliestRecordTime
    ensures endDate.Some? ==> w.hi == endDate.value
    ensures endDate.None? && startDate.Some? ==> w.hi == startDate.value
    ensures endDate.None? && startDate.None? ==> w.hi == now
  {
    var end1 := if endDate.None? && startDate.None? then Some(now) else endDate;
    var start1 := if startDate.None? then EarliestRecordTime else startDate.value;
    var end2 := if end1.None? then start1 else end1.value;
    Window(start1, end2)
  }

  predicate InWindow(v: Vital, w: Window) {
    w.lo <= v.taken <= w.hi
  }

  /** The vitals of `results` inside `w`, in their original order. */
  function Filtered(results: seq<Vital>, w: Window): (kept: seq<Vital>)
  {
    if results == [] then []
    else
      var last := results[|results| - 1];
      Filtered(results[..|results| - 1], w) + if InWindow(last, w) then [last] else []
  }

  /** `a` can be obtained from `b` by deleting elements (order is preserved). */
  ghost predicate IsSubsequence(a: seq<Vital>, b: seq<Vital>)
    decreases |b|
  {
    if a == [] then true
    else if b == [] then false
    else if a[|a| - 1] == b[|b| - 1] then IsSubsequence(a[..|a| - 1], b[..|b| - 1])
    else IsSubsequence(a, b[..|b| - 1])
  }

  /** Every vital keeps its multiplicity when it is inside the window and disappears otherwise. */
  lemma {:induction false} FilteredMultiplicity(results: seq<Vital>, w: Window, v: Vital)
    ensures multiset(Filtered(results, w))[v] == if InWindow(v, w) then multiset(results)[v] else 0
  {
    if results != [] {
      var init, last := results[..|results| - 1], results[|results| - 1];
      assert results == init + [last];
      FilteredMultiplicity(init, w, v);
    }
  }

  /** Membership in the filtered list: exactly the vitals of `results` inside `w`. */
  lemma FilteredMembers(results: seq<Vital>, w: Window, v: Vital)
    ensures v in Filtered(results, w) <==> v in results && InWindow(v, w)
  {
    FilteredMultiplicity(results, w, v);
    assert v in Filtered(results, w) <==> multiset(Filtered(results, w))[v] > 0;
    assert v in results <==> multiset(results)[v] > 0;
  }

  /** The filtered list is an order-preserving subsequence of `results`. */
  lemma {:induction false} FilteredIsSubsequence(results: seq<Vital>, w: Window)
    ensures IsSubsequence(Filtered(results, w), results)
  {
    if results != [] {
      var init, last := results[..|results| - 1], results[|results| - 1];
      FilteredIsSubsequence(init, w);
      var f := Filtered(init, w);
      if InWindow(last, w) {
        assert Filtered(results, w) == f + [last];
        assert (f + [last])[..|f|] == f;
      } else {
        assert Filtered(results, w) == f;
        if f != [] {
          FilteredMembers(init, w, f[|f| - 1]);
          assert f[|f| - 1] != last;
        }
        SubsequenceOfPrefix(f, init, last);
      }
    }
  }

  lemma {:induction false} SubsequenceOfPrefix(a: seq<Vital>, b: seq<Vital>, x: Vital)
    requires IsSubsequence(a, b)
    requires a != [] ==> a[|a| - 1] != x
    ensures IsSubsequence(a, b + [x])
  {
    if a != [] {
      assert (b + [x])[..|b|] == b;
    }
  }

  /** Filtering twice with the same window changes nothing. */
  lemma {:induction false} FilteredIdempotent(results: seq<Vital>, w: Window)
    ensures Filtered(Filtered(results, w), w) == Filtered(results, w)
  {
    if results != [] {
      var init, last := results[..|results| - 1], results[|results| - 1];
      FilteredIdempotent(init, w);
      var f := Filtered(init, w);
      if InWindow(last, w) {
        assert Filtered(results, w) == f + [last];
        assert (f + [last])[..|f|] == f;
      } else {
        assert Filtered(results, w) == f;
      }
    }
  }

  // ---------------------------------------------------------------------------
  // Most recent vital per type
  // ---------------------------------------------------------------------------

  /** The type labels of `vs` in order of first appearance, each once. */
  function Labels(vs: seq<Vital>): (labels: seq<string>)
  {
    if vs == [] then []
    else
      var rest := Labels(vs[..|vs| - 1]);
      var tag := vs[|vs| - 1].typeLabel;
      if tag in rest then rest else rest + [tag]
  }

  /** `Labels` lists each tag of `vs`, and only those. */
  lemma {:induction false} LabelsCover(vs: seq<Vital>, tag: string)
    ensures tag in Labels(vs) <==> exists i :: 0 <= i < |vs| && vs[i].typeLabel == tag
  {
    if vs != [] {
      var init := vs[..|vs| - 1];
      LabelsCover(init, tag);
      if tag in Labels(init) {
        var i :| 0 <= i < |init| && init[i].typeLabel == tag;
        assert vs[i].typeLabel == tag;
      }
      if exists i :: 0 <= i < |vs| && vs[i].typeLabel == tag {
        var i :| 0 <= i < |vs| && vs[i].typeLabel == tag;
        if i < |init| {
          assert init[i].typeLabel == tag;
        }
      }
    }
  }

  /** No tag occurs twice in `Labels(vs)`. */
  lemma {:induction false} LabelsDistinct(vs: seq<Vital>)
    ensures forall m, n :: 0 <= m < n < |Labels(vs)| ==> Labels(vs)[m] != Labels(vs)[n]
  {
    if vs != [] {
      LabelsDistinct(vs[..|vs| - 1]);
    }
  }

  /**
   * `vs[j]` is the one `getMostRecentVitals` keeps for its type: no vital of the
   * type is later, and every vital of the type after it is strictly earlier
   * (so among equal times the last one wins).
   */
  ghost predicate IsLatest(vs: seq<Vital>, j: int)
  {
    && 0 <= j < |vs|
    && (forall i :: 0 <= i < |vs| && vs[i].typeLabel == vs[j].typeLabel ==> vs[i].taken <= vs[j].taken)
    && (forall i :: j < i < |vs| && vs[i].typeLabel == vs[j].typeLabel ==> vs[i].taken < vs[j].taken)
  }

  /** `r` holds one vital per type of `vs`, in first-appearance order, each the latest of its type. */
  ghost predicate IsMostRecentSelection(vs: seq<Vital>, r: seq<Vital>)
  {
    && |r| == |Labels(vs)|
    && forall k :: 0 <= k < |r| ==>
         && r[k].typeLabel == Labels(vs)[k]
         && exists j :: IsLatest(vs, j) && vs[j] == r[k]
  }

  /** At most one position of `vs` is the latest of a given type. */
  lemma LatestIsUnique(vs: seq<Vital>, j1: int, j2: int)
    requires IsLatest(vs, j1) && IsLatest(vs, j2)
    requires vs[j1].typeLabel == vs[j2].typeLabel
    ensures j1 == j2
  {
  }

  /** The selection is determined by the input: two selections of the same vitals are equal. */
  lemma MostRecentSelectionUnique(vs: seq<Vital>, r1: seq<Vital>, r2: seq<Vital>)
    requires IsMostRecentSelection(vs, r1) && IsMostRecentSelection(vs, r2)
    ensures r1 == r2
  {
    forall k | 0 <= k < |r1|
      ensures r1[k] == r2[k]
    {
      var j1 :| IsLatest(vs, j1) && vs[j1] == r1[k];
      var j2 :| IsLatest(vs, j2) && vs[j2] == r2[k];
      LatestIsUnique(vs, j1, j2);
    }
  }

  /** A selection has no two vitals of the same type. */
  lemma SelectionOnePerType(vs: seq<Vital>, r: seq<Vital>)
    requires IsMostRecentSelection(vs, r)
    ensures forall m, n :: 0 <= m < n < |r| ==> r[m].typeLabel != r[n].typeLabel
  {
    LabelsDistinct(vs);
  }

  lemma LatestExtendOther(p: seq<Vital>, x: Vital, j: int)
    requires IsLatest(p, j) && x.typeLabel != p[j].typeLabel
    ensures IsLatest(p + [x], j)
  {
  }

  lemma LatestExtendOlder(p: seq<Vital>, x: Vital, j: int)
    requires IsLatest(p, j) && x.typeLabel == p[j].typeLabel && x.taken < p[j].taken
    ensures IsLatest(p + [x], j)
  {
  }

  lemma LatestExtendNewer(p: seq<Vital>, x: Vital, j: int)
    requires IsLatest(p, j) && x.typeLabel == p[j].typeLabel && x.taken >= p[j].taken
    ensures IsLatest(p + [x], |p|)
  {
  }

  lemma LatestExtendFirst(p: seq<Vital>, x: Vital)
    requires forall i :: 0 <= i < |p| ==> p[i].typeLabel != x.typeLabel
    ensures IsLatest(p + [x], |p|)
  {
  }

  /**
   * The dictionary `mostRecentByType` after scanning `p`: one entry per label
   * of `p`, holding the vital at position `at[l]`, the latest of its type.
   */
  ghost predicate Tracks(p: seq<Vital>, byType: map<string, Vital>, at: map<string, int>)
  {
    && (forall l :: l in byType <==> l in Labels(p))
    && (forall l :: l in at <==> l in byType)
    && forall l :: l in byType ==>
         && byType[l].typeLabel == l
         && 0 <= at[l] < |p| && p[at[l]] == byType[l]
         && IsLatest(p, at[l])
  }

  /** One iteration of the scan keeps `Tracks`: a vital of a new type, or not earlier than the stored one, overwrites it. */
  lemma TracksStep(p: seq<Vital>, v: Vital, byType: map<string, Vital>, at: map<string, int>,
                   byType': map<string, Vital>, at': map<string, int>)
    requires Tracks(p, byType, at)
    requires if v.typeLabel !in byType || v.taken >= byType[v.typeLabel].taken
             then byType' == byType[v.typeLabel := v] && at' == at[v.typeLabel := |p|]
             else byType' == byType && at' == at
    ensures Tracks(p + [v], byType', at')
  {
    var q := p + [v];
    var t := v.typeLabel;
    TracksStepLabels(p, v, byType, byType');
    assert forall l :: l in at' <==> l in byType';
    forall l | l in byType'
      ensures byType'[l].typeLabel == l && 0 <= at'[l] < |q| && q[at'[l]] == byType'[l] && IsLatest(q, at'[l])
    {
      if l != t {
        LatestExtendOther(p, v, at[l]);
      } else if t !in byType {
        LabelsCover(p, t);
        LatestExtendFirst(p, v);
      } else if v.taken >= byType[t].taken {
        LatestExtendNewer(p, v, at[t]);
      } else {
        LatestExtendOlder(p, v, at[t]);
      }
    }
  }

  /** The labels tracked after one more vital are those of the longer sequence. */
  lemma TracksStepLabels(p: seq<Vital>, v: Vital, byType: map<string, Vital>, byType': map<string, Vital>)
    requires forall l :: l in byType <==> l in Labels(p)
    requires byType' == byType[v.typeLabel := v] || byType' == byType
    requires v.typeLabel in byType'
    ensures forall l :: l in byType' <==> l in Labels(p + [v])
  {
    var q := p + [v];
    assert q[..|p|] == p;
    forall l ensures l in byType' <==> l in Labels(q) {
      LabelsCover(p, l);
      LabelsCover(q, l);
      if l in Labels(q) && l != v.typeLabel {
        var i :| 0 <= i < |q| && q[i].typeLabel == l;
        assert q[i] == p[i];
      }
    }
  }

  /** Scanning one more vital adds its label unless already listed. */
  lemma LabelsStep(p: seq<Vital>, v: Vital)
    ensures Labels(p + [v]) == if v.typeLabel in Labels(p) then Labels(p) else Labels(p) + [v.typeLabel]
  {
    assert (p + [v])[..|p|] == p;
  }

  /** Listing the tracked entries in first-appearance order of their labels gives the most-recent selection. */
  lemma TracksSelection(vs: seq<Vital>, byType: map<string, Vital>, at: map<string, int>, r: seq<Vital>)
    requires Tracks(vs, byType, at)
    requires |r| == |Labels(vs)|
    requires forall m :: 0 <= m < |r| ==> Labels(vs)[m] in byType && r[m] == byType[Labels(vs)[m]]
    ensures IsMostRecentSelection(vs, r)
  {
    forall k | 0 <= k < |r|
      ensures r[k].typeLabel == Labels(vs)[k] && exists j :: IsLatest(vs, j) && vs[j] == r[k]
    {
      var l := Labels(vs)[k];
      assert l in byType && r[k] == byType[l];
      var j := at[l];
      assert vs[j] == byType[l] && IsLatest(vs, j);
      assert IsLatest(vs, j) && vs[j] == r[k];
    }
  }

  /**
   * The `getMostRecentVitals` scan: keep, per type label, the latest vital
   * (`>=`, so a later entry wins a tie), then list them in the insertion order
   * of the labels.
   */
  method SelectMostRecent(vitals: seq<Vital>) returns (recent: seq<Vital>)
    ensures IsMostRecentSelection(vitals, recent)
  {
    var mostRecentByType, order, at := ScanByType(vitals);
    recent := [];
    for k := 0 to |order|
      invariant |recent| == k
      invariant forall m :: 0 <= m < k ==> recent[m] == mostRecentByType[order[m]]
    {
      recent := recent + [mostRecentByType[order[k]]];
    }
    TracksSelection(vitals, mostRecentByType, at, recent);
  }

  /** One iteration of the scan: keeps or replaces the stored vital of `v`'s type and lists the type if it is new. */
  method ScanOne(ghost p: seq<Vital>, v: Vital, byType: map<string, Vital>, order: seq<string>, ghost at: map<string, int>)
    returns (byType': map<string, Vital>, order': seq<string>, ghost at': map<string, int>)
    requires order == Labels(p) && Tracks(p, byType, at)
    ensures order' == Labels(p + [v]) && Tracks(p + [v], byType', at')
  {
    var t := v.typeLabel;
    byType', at' := byType, at;
    if t !in byType || v.taken >= byType[t].taken {
      byType' := byType[t := v];
      at' := at[t := |p|];
    }
    order' := if t in order then order else order + [t];
    TracksStep(p, v, byType, at, byType', at');
    LabelsStep(p, v);
  }

  /** The first loop of the scan: the dictionary of latest vitals per label, and the labels in insertion order. */
  method ScanByType(vitals: seq<Vital>)
    returns (mostRecentByType: map<string, Vital>, order: seq<string>, ghost at: map<string, int>)
    ensures order == Labels(vitals)
    ensures Tracks(vitals, mostRecentByType, at)
  {
    mostRecentByType := map[];
    order := [];
    at := map[];
    for i := 0 to |vitals|
      invariant order == Labels(vitals[..i])
      invariant Tracks(vitals[..i], mostRecentByType, at)
    {
      assert vitals[..i + 1] == vitals[..i] + [vitals[i]];
      mostRecentByType, order, at := ScanOne(vitals[..i], vitals[i], mostRecentByType, order, at);
    }
    assert vitals[..|vitals|] == vitals;
  }

  // ---------------------------------------------------------------------------
  // The service
  // ---------------------------------------------------------------------------

  /** Opens a vitals service; fails, as the constructor throws, when the context has no patient id. */
  method Open(ctx: ServiceContext, mvdmList: string -> seq<Vital>, mvdmCreate: VitalRequest -> string)
    returns (r: Result<VitalsService, string>)
    ensures r.Failure? <==> PatientIdOf(ctx).Failure?
    ensures r.Failure? ==> r.error == MissingPatientError
    ensures r.Success? ==> fresh(r.value) && r.value.patientId == PatientIdOf(ctx).value
    ensures r.Success? ==> r.value.events == [] && r.value.submitted == []
  {
    var id := PatientIdOf(ctx);
    if id.Failure? {
      return Failure(id.error);
    }
    var svc := new VitalsService(ctx, mvdmList, mvdmCreate);
    return Success(svc);
  }

  class VitalsService {
    const patientId: string
    /** The MVDM store's `list('Vital', patientId).results`. */
    const mvdmList: string -> seq<Vital>
    /** The MVDM store's response to `create`. */
    const mvdmCreate: VitalRequest -> string
    /** Every object passed to the MVDM store's `create`, oldest first. */
    var submitted: seq<VitalRequest>
    /** Every service event emitted, oldest first. */
    var events: seq<ServiceEvent>

    constructor (ctx: ServiceContext, mvdmList: string -> seq<Vital>, mvdmCreate: VitalRequest -> string)
      requires PatientIdOf(ctx).Success?
      ensures patientId == PatientIdOf(ctx).value
      ensures this.mvdmList == mvdmList && this.mvdmCreate == mvdmCreate
      ensures submitted == [] && events == []
    {
      patientId := ctx.patientId.value;
      this.mvdmList := mvdmList;
      this.mvdmCreate := mvdmCreate;
      submitted := [];
      events := [];
    }

    /**
     * Builds the create request (type 'Vital', the picked fields and the
     * qualifier records), sends it to the store and emits a 'create' event
     * carrying the store's response.
     */
    method Create(args: CreateArgs) returns (res: string)
      modifies this`submitted, this`events
      ensures |submitted| == |old(submitted)| + 1 && submitted[..|old(submitted)|] == old(submitted)
      ensures var req := submitted[|submitted| - 1];
        && req.kind == VitalDomain
        && req.value == args.value && req.supplementalO2 == args.supplementalO2
        && req.vitalType == args.vitalType && req.hospitalLocation == args.hospitalLocation
        && req.enteredBy == args.enteredBy
        && req.vitalsTakenDateTime == args.vitalsTakenDateTime
        && req.vitalsEnteredDateTime == args.vitalsEnteredDateTime
        && (args.qualifiers.None? ==> req.qualifier.None?)
        && (args.qualifiers.Some? ==>
              && req.qualifier.Some?
              && |req.qualifier.value| == |args.qualifiers.value|
              && forall i :: 0 <= i < |args.qualifiers.value| ==> req.qualifier.value[i].id == args.qualifiers.value[i])
        && res == mvdmCreate(req)
      ensures events == old(events) + [ServiceEvent("create", VitalDomain, Response(res))]
    {
      var req := VitalRequest(VitalDomain, args.value, args.supplementalO2,
                              args.vitalType, args.hospitalLocation, args.enteredBy,
                              args.vitalsTakenDateTime, args.vitalsEnteredDateTime, None);
      if args.qualifiers.Some? {
        var qs := args.qualifiers.value;
        var qualifier: seq<QualifierRef> := [];
        for i := 0 to |qs|
          invariant |qualifier| == i
          invariant forall m :: 0 <= m < i ==> qualifier[m].id == qs[m]
        {
          qualifier := qualifier + [QualifierRef(qs[i])];
        }
        req := req.(qualifier := Some(qualifier));
      }
      submitted := submitted + [req];
      res := mvdmCreate(req);
      events := events + [ServiceEvent("create", VitalDomain, Response(res))];
    }

    /**
     * The patient's vitals taken inside the window the arguments give (both
     * bounds inclusive), in store order; emits a 'list' event unless
     * `suppressEvent`.
     */
    method List(startDate: Option<int>, endDate: Option<int>, suppressEvent: bool, now: int)
      returns (vitals: seq<Vital>)
      modifies this`events
      ensures vitals == Filtered(mvdmList(patientId), WindowBounds(startDate, endDate, now))
      ensures events == old(events) + if suppressEvent then [] else [ServiceEvent("list", VitalDomain, Results(vitals))]
    {
      var results := mvdmList(patientId);
      var start, end := startDate, endDate;
      if end.None? && start.None? {
        end := Some(now);
      }
      if start.None? {
        start := Some(EarliestRecordTime);
      }
      if end.None? {
        end := start;
      }
      var w := Window(start.value, end.value);
      assert w == WindowBounds(startDate, endDate, now);
      vitals := [];
      for i := 0 to |results|
        invariant vitals == Filtered(results[..i], w)
      {
        assert results[..i + 1][..i] == results[..i];
        var taken := results[i].taken;
        if taken >= start.value && taken <= end.value {
          vitals := vitals + [results[i]];
        }
      }
      assert results[..|results|] == results;
      if !suppressEvent {
        events := events + [ServiceEvent("list", VitalDomain, Results(vitals))];
      }
    }

    /**
     * The most recent vital of each type inside the window, in order of first
     * appearance of the type; emits a 'mostRecentVitals' event (the inner
     * `list` call emits none).
     */
    method GetMostRecentVitals(startDate: Option<int>, endDate: Option<int>, now: int)
      returns (recent: seq<Vital>)
      modifies this`events
      ensures IsMostRecentSelection(Filtered(mvdmList(patientId), WindowBounds(startDate, endDate, now)), recent)
      ensures events == old(events) + [ServiceEvent("mostRecentVitals", VitalDomain, Results(recent))]
    {
      var vitals := List(startDate, endDate, true, now);
      recent := SelectMostRecent(vitals);
      events := events + [ServiceEvent("mostRecentVitals", VitalDomain, Results(recent))];
    }
  }
}
