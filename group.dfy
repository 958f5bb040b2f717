/** `ODriveGroup`: the set of managed axes, kept as a `BTreeMap` keyed by id,
    and the calls that build one request per axis, hand it to the CAN
    transport and convert what comes back. The transport (`request`,
    `request_many`) is a parameter: a function from requests to results. */
module Group {
  import opened Wrappers
  import opened Bytes
  import opened LittleEndian
  import opened State
  import opened Frame
  import opened Response
  import opened Axes
  import Casts

  /** What a call hands back for one axis: decoded, failed, or a panic. */
  type Converted<T> = Run<Result<Success<T>, ErrorResponse>>

  // ------------------------------------------------------------------ axes

  /** The `BTreeMap` iterates in key order: ids strictly ascending. */
  predicate Ascending(axes: seq<Axis>)
  {
    forall i, j :: 0 <= i < j < |axes| ==> axes[i].id < axes[j].id
  }

  /** The keys of the map. */
  function IdSet(axes: seq<Axis>): (r: set<AxisID>)
  {
    set a | a in axes :: a.id
  }

  /** Every entry is the `Axis::new` of its own key. */
  predicate Fresh(axes: seq<Axis>)
  {
    forall a :: a in axes ==> a == NewAxis(a.id)
  }

  datatype ODriveGroup = ODriveGroup(axes: seq<Axis>)
  {
    predicate Valid()
    {
      Ascending(axes) && Fresh(axes)
    }
  }

  lemma IdSetCons(a: Axis, rest: seq<Axis>)
    ensures IdSet([a] + rest) == {a.id} + IdSet(rest)
  {
    assert forall x :: x in [a] + rest <==> x == a || x in rest;
  }

  lemma AscendingCons(a: Axis, rest: seq<Axis>)
    requires Ascending(rest)
    requires forall x :: x in rest ==> a.id < x.id
    ensures Ascending([a] + rest)
  {
    var s := [a] + rest;
    forall i, j | 0 <= i < j < |s| ensures s[i].id < s[j].id {
      if i > 0 {
        assert s[i] == rest[i - 1] && s[j] == rest[j - 1];
      } else {
        assert s[j] in rest;
      }
    }
  }

  /** `BTreeMap::insert(id, Axis::new(id))`: a new key takes its place in
      order; an existing key is overwritten. */
  function Insert(axes: seq<Axis>, id: AxisID): (r: seq<Axis>)
    requires Ascending(axes)
    ensures Ascending(r)
    ensures forall a :: a in r ==> a == NewAxis(id) || a in axes
  {
    if |axes| == 0 then [NewAxis(id)]
    else
      var head, tail := axes[0], axes[1..];
      assert forall a :: a in tail ==> head.id < a.id by {
        forall a | a in tail ensures head.id < a.id {
          var k :| 0 <= k < |tail| && tail[k] == a;
          assert axes[k + 1] == a;
        }
      }
      if id < head.id then
        AscendingCons(NewAxis(id), axes);
        [NewAxis(id)] + axes
      else if id == head.id then
        AscendingCons(NewAxis(id), tail);
        [NewAxis(id)] + tail
      else
        var rest := Insert(tail, id);
        AscendingCons(head, rest);
        [head] + rest
  }

  /** After the insertion the keys are the old keys and `id`. */
  lemma {:induction false} InsertIds(axes: seq<Axis>, id: AxisID)
    requires Ascending(axes)
    ensures IdSet(Insert(axes, id)) == IdSet(axes) + {id}
  {
    if |axes| == 0 {
      IdSetCons(NewAxis(id), []);
    } else {
      var head, tail := axes[0], axes[1..];
      assert axes == [head] + tail;
      IdSetCons(head, tail);
      if id < head.id {
        IdSetCons(NewAxis(id), axes);
      } else if id == head.id {
        IdSetCons(NewAxis(id), tail);
      } else {
        InsertIds(tail, id);
        IdSetCons(head, Insert(tail, id));
      }
    }
  }

  /** `ODriveGroup::new(axis_ids)`: the ids collected into the map, one
      `Axis::new` per id, in id order. */
  function New(ids: seq<AxisID>): (g: ODriveGroup)
    ensures g.Valid()
  {
    if |ids| == 0 then ODriveGroup([])
    else ODriveGroup(Insert(New(ids[..|ids| - 1]).axes, ids[|ids| - 1]))
  }

  /** The managed ids are exactly the given ids: duplicates collapse. */
  lemma {:induction false} NewIds(ids: seq<AxisID>)
    ensures IdSet(New(ids).axes) == set id | id in ids
  {
    if |ids| > 0 {
      var prefix, last := ids[..|ids| - 1], ids[|ids| - 1];
      NewIds(prefix);
      InsertIds(New(prefix).axes, last);
      assert ids == prefix + [last];
      ElementsAppend(prefix, last);
    }
  }

  lemma ElementsAppend(prefix: seq<AxisID>, last: AxisID)
    ensures (set id | id in prefix + [last]) == (set id | id in prefix) + {last}
  {
    assert forall id :: id in prefix + [last] <==> id in prefix || id == last;
  }

  /** The ids of the axes, in map order. */
  function Ids(axes: seq<Axis>): (r: seq<AxisID>)
    ensures |r| == |axes| && forall i :: 0 <= i < |axes| ==> r[i] == axes[i].id
  {
    seq(|axes|, i requires 0 <= i < |axes| => axes[i].id)
  }

  /** An id larger than every key goes at the end. */
  lemma InsertLast(axes: seq<Axis>, id: AxisID)
    requires Ascending(axes)
    requires forall a :: a in axes ==> a.id < id
    ensures Insert(axes, id) == axes + [NewAxis(id)]
  {
    if |axes| > 0 {
      assert axes == [axes[0]] + axes[1..];
      InsertLast(axes[1..], id);
    }
  }

  lemma IdsBelow(axes: seq<Axis>, bound: AxisID)
    requires forall i :: 0 <= i < |axes| ==> Ids(axes)[i] < bound
    ensures forall a :: a in axes ==> a.id < bound
  {
    forall a | a in axes ensures a.id < bound {
      var k :| 0 <= k < |axes| && axes[k] == a;
      assert Ids(axes)[k] == a.id;
    }
  }

  /** Strictly ascending ids are kept as they are, in the same order. */
  lemma {:induction false} NewAscending(ids: seq<AxisID>)
    requires forall i, j :: 0 <= i < j < |ids| ==> ids[i] < ids[j]
    ensures Ids(New(ids).axes) == ids
  {
    if |ids| > 0 {
      var prefix, last := ids[..|ids| - 1], ids[|ids| - 1];
      NewAscending(prefix);
      assert ids == prefix + [last];
      NewAppend(prefix, last);
    }
  }

  lemma NewAppend(prefix: seq<AxisID>, last: AxisID)
    requires Ids(New(prefix).axes) == prefix
    requires forall i :: 0 <= i < |prefix| ==> prefix[i] < last
    ensures Ids(New(prefix + [last]).axes) == prefix + [last]
  {
    var axes := New(prefix).axes;
    IdsBelow(axes, last);
    InsertLast(axes, last);
    assert (prefix + [last])[..|prefix|] == prefix;
    assert New(prefix + [last]).axes == axes + [NewAxis(last)];
    IdsAppend(axes, NewAxis(last));
  }

  lemma IdsAppend(axes: seq<Axis>, a: Axis)
    ensures Ids(axes + [a]) == Ids(axes) + [a.id]
  {
    var l, r := Ids(axes + [a]), Ids(axes) + [a.id];
    assert |l| == |r|;
    forall k | 0 <= k < |l| ensures l[k] == r[k] {
      if k < |axes| {
        assert (axes + [a])[k] == axes[k];
      }
    }
  }

  // -------------------------------------------------------------- requests

  /** `self.axes.values().map(|ax| f(ax)).collect()`: one request per
      managed axis, in id order. */
  function Requests(g: ODriveGroup, f: Axis -> CANRequest): (r: seq<CANRequest>)
    ensures |r| == |g.axes| && forall i :: 0 <= i < |r| ==> r[i] == f(g.axes[i])
  {
    seq(|g.axes|, i requires 0 <= i < |g.axes| => f(g.axes[i]))
  }

  /** When `f` addresses each managed axis it is given, the requests go to
      the managed ids in strictly ascending order. */
  lemma RequestsAscending(g: ODriveGroup, f: Axis -> CANRequest)
    requires g.Valid()
    requires forall a :: a in g.axes ==> f(a).axis == a.id
    ensures var reqs := Requests(g, f);
      (forall i, j :: 0 <= i < j < |reqs| ==> reqs[i].axis < reqs[j].axis) &&
      (set r | r in reqs :: r.axis) == IdSet(g.axes)
  {
    var reqs := Requests(g, f);
    forall x | x in IdSet(g.axes) ensures x in (set r | r in reqs :: r.axis) {
      var a :| a in g.axes && a.id == x;
      var k :| 0 <= k < |g.axes| && g.axes[k] == a;
      assert reqs[k].axis == x;
    }
  }

  /** `all_axes(|ax| ax.motor.get_errors())` queries every managed axis once,
      in id order: on a group built by `new` the motor shares its axis's id. */
  lemma MotorRequestsAscending(g: ODriveGroup)
    requires g.Valid()
    ensures var reqs := Requests(g, (a: Axis) => a.motor.GetErrors());
      (forall i, j :: 0 <= i < j < |reqs| ==> reqs[i].axis < reqs[j].axis) &&
      (set r | r in reqs :: r.axis) == IdSet(g.axes)
  {
    forall a | a in g.axes ensures a.motor.GetErrors().axis == a.id {
      assert a == NewAxis(a.id);
    }
    RequestsAscending(g, (a: Axis) => a.motor.GetErrors());
  }

  /** The batch of the repository's `all_axes` test: axes 0..=5 asked for
      full calibration get one request each, in id order, all alike but for
      the axis. */
  lemma CalibrationRequestsExample()
    ensures var reqs := Requests(New([0, 1, 2, 3, 4, 5]), (a: Axis) => a.SetState(FullCalibrationSequence));
      |reqs| == 6 &&
      forall i :: 0 <= i < 6 ==>
        reqs[i] == CANFrame(i, Write(SetAxisRequestedState), [AxisStateValue(FullCalibrationSequence), 0, 0, 0, 0, 0, 0, 0])
  {
    var ids := [0, 1, 2, 3, 4, 5];
    NewAscending(ids);
    var g := New(ids);
    forall i | 0 <= i < 6 ensures g.axes[i] == NewAxis(i) {
      assert g.axes[i].id == Ids(g.axes)[i] == ids[i];
      assert g.axes[i] in g.axes;
    }
  }

  // ------------------------------------------------------------ conversion

  /** The frame a response is decoded from: the reply for a `Body`, the
      request itself for a `Bodyless` (Write) envelope. */
  function FrameToConvert(rt: ResponseType): (r: CANFrame)
    ensures rt.Body? ==> GetBody(rt) == Returns((Request(rt), r))
    ensures rt.Bodyless? ==> r == Request(rt)
  {
    match rt
    case Body(_, response) => response
    case Bodyless(req) => req
  }

  /** `convert_response`: a transport error passes through; otherwise the
      frame is decoded and the original request is attached, to the
      `Success` on decode success and to the `ErrorResponse` on failure. */
  function ConvertResponse<T>(response: ODriveResponse, decode: CANResponse -> Casts.Decoded<T>): (r: Converted<T>)
    ensures response.Err? ==> r == Returns(Err(response.error))
    ensures response.Ok? && response.value.Body? ==>
      (r.Panics? <==> decode(response.value.response).Panics?)
    ensures response.Ok? && response.value.Bodyless? ==>
      (r.Panics? <==> decode(response.value.req).Panics?)
    ensures response.Ok? && r.Returns? ==> (
      var d := decode(FrameToConvert(response.value));
      (r.value.Ok? <==> d.value.Ok?) &&
      (r.value.Ok? ==> r.value.value == Success(FrameToConvert(response.value).axis,
                                                Request(response.value), d.value.value)) &&
      (r.value.Err? ==> r.value.error == ErrorResponse(Request(response.value), d.value.error)))
  {
    match response
    case Err(err) => Returns(Err(err))
    case Ok(respType) =>
      var canToConvert := FrameToConvert(respType);
      match decode(canToConvert)
      case Panics => Panics
      case Returns(Ok(data)) => Returns(Ok(Success(canToConvert.axis, Request(respType), data)))
      case Returns(Err(e)) => Returns(Err(ErrorResponse(Request(respType), e)))
  }

  /** Whatever the outcome, a converted envelope carries the request that
      was sent. */
  lemma ConvertKeepsRequest<T>(rt: ResponseType, decode: CANResponse -> Casts.Decoded<T>)
    ensures var r := ConvertResponse(Ok(rt), decode);
      r.Returns? ==>
        (r.value.Ok? ==> r.value.value.sentRequest == Request(rt)) &&
        (r.value.Err? ==> r.value.error.request == Request(rt))
  {
  }

  /** The bodyless answer to a Write request converts to unit, with the
      request's axis and the request itself; a Read request answered
      bodyless panics in the unit decoder. */
  lemma BodylessWriteSucceeds(req: CANRequest)
    ensures req.cmd.Write? ==>
      ConvertResponse(Ok(Bodyless(req)), Casts.ToUnit) == Returns(Ok(Success(req.axis, req, ())))
    ensures req.cmd.Read? ==> ConvertResponse(Ok(Bodyless(req)), Casts.ToUnit).Panics?
  {
  }

  /** With the decoders of this model, a decode failure is always bad data. */
  lemma HeartbeatFailureIsBadData(rt: ResponseType)
    ensures var r := ConvertResponse(Ok(rt), Casts.ToHeartbeat);
      r.Returns? && r.value.Err? ==> r.value.error == ErrorResponse(Request(rt), ConvertedBadData)
  {
  }

  // ----------------------------------------------------------------- calls

  /** A transport that answers every batch with one result per request. */
  ghost predicate OnePerRequest(requestMany: seq<CANRequest> -> seq<ODriveResponse>)
  {
    forall reqs :: |requestMany(reqs)| == |reqs|
  }

  /** The request a transport result is about: the envelope's request, or
      the one carried by the failure. */
  function ResultRequest(res: ODriveResponse): (r: CANRequest)
  {
    match res
    case Ok(rt) => Request(rt)
    case Err(e) => e.request
  }

  /** A transport that hands the results back in the order the requests were
      given: result `i` is about request `i`. */
  ghost predicate InOrder(requestMany: seq<CANRequest> -> seq<ODriveResponse>)
  {
    forall reqs, i :: 0 <= i < |reqs| && i < |requestMany(reqs)| ==> ResultRequest(requestMany(reqs)[i]) == reqs[i]
  }

  /** `all_axes`: the requests go out together, and each result is
      converted in the order the transport returns them. A panic in one
      conversion ends the call. */
  method AllAxes<T>(g: ODriveGroup, f: Axis -> CANRequest,
                    requestMany: seq<CANRequest> -> seq<ODriveResponse>,
                    decode: CANResponse -> Casts.Decoded<T>)
    returns (r: Run<seq<Result<Success<T>, ErrorResponse>>>)
    ensures var responses := requestMany(Requests(g, f));
      (r.Panics? <==> exists i :: 0 <= i < |responses| && ConvertResponse(responses[i], decode).Panics?) &&
      (r.Returns? ==>
        |r.value| == |responses| &&
        forall i :: 0 <= i < |responses| ==> Returns(r.value[i]) == ConvertResponse(responses[i], decode))
    ensures OnePerRequest(requestMany) && r.Returns? ==> |r.value| == |g.axes|
    ensures OnePerRequest(requestMany) && InOrder(requestMany) && r.Returns? ==>
      forall i :: 0 <= i < |r.value| ==>
        (r.value[i].Ok? ==> r.value[i].value.sentRequest == Requests(g, f)[i]) &&
        (r.value[i].Err? ==> r.value[i].error.request == Requests(g, f)[i])
  {
    var requests := Requests(g, f);
    var responses := requestMany(requests);
    var finalResponses: seq<Result<Success<T>, ErrorResponse>> := [];
    var k := 0;
    while k < |responses|
      invariant 0 <= k <= |responses| && |finalResponses| == k
      invariant forall i :: 0 <= i < k ==> Returns(finalResponses[i]) == ConvertResponse(responses[i], decode)
    {
      var res := ConvertResponse(responses[k], decode);
      if res.Panics? {
        return Panics;
      }
      finalResponses := finalResponses + [res.value];
      k := k + 1;
    }
    forall i | 0 <= i < |finalResponses| && responses[i].Ok? {
      ConvertKeepsRequest(responses[i].value, decode);
    }
    r := Returns(finalResponses);
  }

  /** The repository's `all_axes` test: axes 0..=5 are sent full
      calibration over a transport that answers in order, and entry `i` of
      the result carries the request built for axis `i`. */
  method CalibrationAllAxes(requestMany: seq<CANRequest> -> seq<ODriveResponse>)
    returns (r: Run<seq<Result<Success<()>, ErrorResponse>>>)
    requires OnePerRequest(requestMany) && InOrder(requestMany)
    ensures r.Returns? ==> |r.value| == 6
    ensures r.Returns? ==> forall i :: 0 <= i < |r.value| && r.value[i].Ok? ==>
      r.value[i].value.sentRequest ==
        CANFrame(i, Write(SetAxisRequestedState), [AxisStateValue(FullCalibrationSequence), 0, 0, 0, 0, 0, 0, 0])
  {
    var g := New([0, 1, 2, 3, 4, 5]);
    CalibrationRequestsExample();
    NewAscending([0, 1, 2, 3, 4, 5]);
    r := AllAxes(g, (a: Axis) => a.SetState(FullCalibrationSequence), requestMany, Casts.ToUnit);
  }

  /** `get_axis`: the managed axis with that id; an unknown id panics. */
  function GetAxis(g: ODriveGroup, id: AxisID): (r: Run<Axis>)
    ensures r.Returns? <==> id in IdSet(g.axes)
    ensures r.Returns? ==> r.value.id == id && r.value in g.axes
    ensures r.Returns? && g.Valid() ==> r.value == NewAxis(id)
  {
    Find(g.axes, id)
  }

  /** `BTreeMap::get` followed by the `None` arm's panic. */
  function Find(axes: seq<Axis>, id: AxisID): (r: Run<Axis>)
    ensures r.Returns? <==> id in IdSet(axes)
    ensures r.Returns? ==> r.value.id == id && r.value in axes
  {
    if |axes| == 0 then Panics
    else if axes[0].id == id then Returns(axes[0])
    else
      assert IdSet(axes) == {axes[0].id} + IdSet(axes[1..]);
      Find(axes[1..], id)
  }

  /** `axis(id, f)`: the request `f` builds for that axis goes out alone and
      its result is converted. An unknown id panics before anything is sent. */
  function AxisCall<T>(g: ODriveGroup, id: AxisID, f: Axis -> CANRequest,
                       request: CANRequest -> ODriveResponse,
                       decode: CANResponse -> Casts.Decoded<T>): (r: Converted<T>)
    requires g.Valid()
    ensures id !in IdSet(g.axes) ==> r.Panics?
    ensures id in IdSet(g.axes) ==> r == ConvertResponse(request(f(NewAxis(id))), decode)
  {
    match GetAxis(g, id)
    case Panics => Panics
    case Returns(ax) => ConvertResponse(request(f(ax)), decode)
  }

  /** `axis(&id, |ax| ax.motor.set_input_vel(v))` on a transport that
      acknowledges the Write: the velocity frame goes to `id` and comes back
      as a `Success` carrying it. */
  lemma InputVelCallAcknowledged(g: ODriveGroup, id: AxisID, v: F32)
    requires g.Valid() && id in IdSet(g.axes)
    ensures var req := NewAxis(id).motor.InputVelRequest(v);
      AxisCall(g, id, (a: Axis) => a.motor.InputVelRequest(v), (q: CANRequest) => Ok(Bodyless(q)), Casts.ToUnit)
        == Returns(Ok(Success(id, req, ())))
  {
    BodylessWriteSucceeds(NewAxis(id).motor.InputVelRequest(v));
  }

  /** `first_axis_id`: the smallest managed id; `unwrap` panics on an empty
      group. */
  function FirstAxisId(g: ODriveGroup): (r: Run<AxisID>)
    ensures r.Panics? <==> |g.axes| == 0
    ensures r.Returns? ==> r.value in IdSet(g.axes)
    ensures r.Returns? && g.Valid() ==> forall x :: x in IdSet(g.axes) ==> r.value <= x
  {
    if |g.axes| == 0 then Panics
    else
      assert g.Valid() ==> forall a :: a in g.axes ==> g.axes[0].id <= a.id;
      Returns(g.axes[0].id)
  }

  /** `reboot` as written: it builds the `RebootODrive` ticket for the first
      axis and drops it. The transport is never called, so the result does
      not depend on it. */
  function Reboot(g: ODriveGroup, request: CANRequest -> ODriveResponse): (r: Run<()>)
    ensures r.Panics? <==> |g.axes| == 0
  {
    match FirstAxisId(g)
    case Panics => Panics
    case Returns(first) =>
      var _ := Ticket(first, Write(RebootODrive), Zeros(8));
      Returns(())
  }

  /** Whatever the transport would answer, `reboot` as written returns the
      same: the reboot request never reaches the bus. */
  lemma RebootNeverSends(g: ODriveGroup, up: CANRequest -> ODriveResponse)
    requires |g.axes| > 0
    ensures var down := (req: CANRequest) => Err(ErrorResponse(req, FailedToSend));
      Reboot(g, up) == Reboot(g, down) == Returns(())
  {
  }

  /** The reboot request: `Write(RebootODrive)`, zero payload, first axis. */
  function RebootRequest(g: ODriveGroup): (r: Run<CANRequest>)
    ensures r.Panics? <==> |g.axes| == 0
    ensures r.Returns? ==> r.value.cmd == Write(RebootODrive) && r.value.data == Zeros(8)
    ensures r.Returns? && g.Valid() ==>
      r.value.axis in IdSet(g.axes) && forall x :: x in IdSet(g.axes) ==> r.value.axis <= x
  {
    match FirstAxisId(g)
    case Panics => Panics
    case Returns(first) => Returns(Ticket(first, Write(RebootODrive), Zeros(8)))
  }

  /** `reboot` as evidently intended: the reboot request is sent and its
      bodyless acknowledgement converted like any other Write. */
  function RebootSent(g: ODriveGroup, request: CANRequest -> ODriveResponse): (r: Converted<()>)
    ensures |g.axes| == 0 ==> r.Panics?
    ensures |g.axes| > 0 ==> r == ConvertResponse(request(RebootRequest(g).value), Casts.ToUnit)
  {
    match RebootRequest(g)
    case Panics => Panics
    case Returns(req) => ConvertResponse(request(req), Casts.ToUnit)
  }

  /** The sent reboot reports what the transport did: the acknowledgement
      becomes `Success` for the reboot request, a send failure an
      `ErrorResponse` for it. */
  lemma RebootSentReports(g: ODriveGroup)
    requires |g.axes| > 0
    ensures var req := RebootRequest(g).value;
      RebootSent(g, (q: CANRequest) => Ok(Bodyless(q))) == Returns(Ok(Success(req.axis, req, ()))) &&
      RebootSent(g, (q: CANRequest) => Err(ErrorResponse(q, FailedToSend)))
        == Returns(Err(ErrorResponse(req, FailedToSend)))
  {
  }

  /** The call of the repository's `axis` test: axis 1 of the group 0..=5
      asked for its temperatures sends exactly the temperature request for
      axis 1, and that request comes back attached to the decoded reply. */
  lemma TemperatureCallExample(d: Bytes8)
    ensures var g := New([0, 1, 2, 3, 4, 5]);
      var expected := CANFrame(1, Read(GetTemperature), Zeros(8));
      var request := (q: CANRequest) => Ok(Body(q, CANFrame(q.axis, q.cmd, d)));
      var r := AxisCall(g, 1, (a: Axis) => a.GetTemperatures(), request, Casts.ToTemperature);
      r.Returns? && r.value.Ok? && r.value.value.sentRequest == expected && r.value.value.axis == 1
  {
    var g := New([0, 1, 2, 3, 4, 5]);
    NewIds([0, 1, 2, 3, 4, 5]);
    assert 1 in [0, 1, 2, 3, 4, 5];
    assert 1 in IdSet(g.axes);
  }
}
