/**
  Conversion of preprocessed frame data received by the example Physiology
  Core gRPC server into array form
  (grpc_continuous_example/example_physiology_core_grpc_server.py,
  preprocessed_proto_hr_to_numpy and preprocessed_proto_rr_to_numpy).

  Arrays are allocated first and then filled element by element. The element
  types are left generic: the model is about which input element lands in
  which array cell.
*/
module PreprocessedConversion {
  import opened Wrappers

  datatype Point2<T> = Point2(x: T, y: T)
  datatype Point3<T> = Point3(x: T, y: T, z: T)

  /** `ps.HrPreprocessedFrameData`: face landmarks, per-ROI BGR averages (the face first), frame time. */
  datatype HrPreprocessedFrameData<L, V> =
    HrPreprocessedFrameData(faceLandmark: seq<Point2<L>>, roiBgrAverage: seq<Point3<V>>, timeNow: real)

  /** `ps.RrPreprocessedFrameData`: tracked points, their labels, a reset flag, frame time. */
  datatype RrPreprocessedFrameData<P, B> =
    RrPreprocessedFrameData(trackedPoint: seq<Point2<P>>, trackedPointLabel: seq<B>, reset: bool, timeNow: real)

  /** Rows `0 .. n-1` of the `k x 2` array `a` are the points `points[0 .. n-1]`. */
  ghost predicate RowsOf2<T>(a: array2<T>, points: seq<Point2<T>>, n: nat)
    reads a
    requires n <= |points| && n <= a.Length0 && a.Length1 == 2
  {
    forall i :: 0 <= i < n ==> a[i, 0] == points[i].x && a[i, 1] == points[i].y
  }

  /** Row `row` of the `k x 3` array `a` is the point `p`. */
  ghost predicate RowOf3<T>(a: array2<T>, row: nat, p: Point3<T>)
    reads a
    requires row < a.Length0 && a.Length1 == 3
  {
    a[row, 0] == p.x && a[row, 1] == p.y && a[row, 2] == p.z
  }

  /** `PreprocessedHeartRateDataNumpy`. */
  class PreprocessedHeartRateDataNumpy<L, V> {
    const faceLandmarks: array2<L>
    const roiBgrAverages: array2<V>
    const faceBgrAverage: array2<V>
    const timeNow: real

    constructor (faceLandmarks: array2<L>, roiBgrAverages: array2<V>, faceBgrAverage: array2<V>, timeNow: real)
      ensures this.faceLandmarks == faceLandmarks && this.roiBgrAverages == roiBgrAverages
      ensures this.faceBgrAverage == faceBgrAverage && this.timeNow == timeNow
    {
      this.faceLandmarks := faceLandmarks;
      this.roiBgrAverages := roiBgrAverages;
      this.faceBgrAverage := faceBgrAverage;
      this.timeNow := timeNow;
    }
  }

  /** `PreprocessedRespiratoryRateDataNumpy`. */
  class PreprocessedRespiratoryRateDataNumpy<P, B> {
    const trackedPoints: array2<P>
    const trackedPointLabels: array<B>
    const reset: bool
    const timeNow: real

    constructor (trackedPoints: array2<P>, trackedPointLabels: array<B>, reset: bool, timeNow: real)
      ensures this.trackedPoints == trackedPoints && this.trackedPointLabels == trackedPointLabels
      ensures this.reset == reset && this.timeNow == timeNow
    {
      this.trackedPoints := trackedPoints;
      this.trackedPointLabels := trackedPointLabels;
      this.reset := reset;
      this.timeNow := timeNow;
    }
  }

  /**
    Heart-rate data to arrays: one `(x, y)` row per landmark; ROI 0 becomes the
    1 x 3 face average and ROI `i >= 1` becomes row `i - 1` of the ROI averages,
    which therefore have one row fewer than the input. Without any ROI the
    `(-1, 3)` allocation fails, which the result reports as `None`.
  */
  method PreprocessedProtoHrToNumpy<L(0), V(0)>(data: HrPreprocessedFrameData<L, V>)
    returns (result: Option<PreprocessedHeartRateDataNumpy<L, V>>)
    ensures result.None? <==> data.roiBgrAverage == []
    ensures result.Some? ==>
              var r, rois := result.value, data.roiBgrAverage;
              && fresh(r) && fresh(r.faceLandmarks) && fresh(r.roiBgrAverages) && fresh(r.faceBgrAverage)
              && r.faceLandmarks.Length0 == |data.faceLandmark| && r.faceLandmarks.Length1 == 2
              && RowsOf2(r.faceLandmarks, data.faceLandmark, |data.faceLandmark|)
              && r.faceBgrAverage.Length0 == 1 && r.faceBgrAverage.Length1 == 3
              && RowOf3(r.faceBgrAverage, 0, rois[0])
              && r.roiBgrAverages.Length0 == |rois| - 1 && r.roiBgrAverages.Length1 == 3
              && (forall i :: 1 <= i < |rois| ==> RowOf3(r.roiBgrAverages, i - 1, rois[i]))
              && r.timeNow == data.timeNow
  {
    var landmarks := data.faceLandmark;
    var faceLandmarks := new L[|landmarks|, 2];
    for i := 0 to |landmarks|
      invariant RowsOf2(faceLandmarks, landmarks, i)
    {
      faceLandmarks[i, 0] := landmarks[i].x;
      faceLandmarks[i, 1] := landmarks[i].y;
    }

    var rois := data.roiBgrAverage;
    if |rois| == 0 {
      return None;
    }
    var roiBgrAverages := new V[|rois| - 1, 3];
    var faceBgrAverage := new V[1, 3];
    for i := 0 to |rois|
      invariant RowsOf2(faceLandmarks, landmarks, |landmarks|)
      invariant i > 0 ==> RowOf3(faceBgrAverage, 0, rois[0])
      invariant forall k :: 1 <= k < i ==> RowOf3(roiBgrAverages, k - 1, rois[k])
    {
      if i == 0 {
        faceBgrAverage[0, 0] := rois[i].x;
        faceBgrAverage[0, 1] := rois[i].y;
        faceBgrAverage[0, 2] := rois[i].z;
      } else {
        roiBgrAverages[i - 1, 0] := rois[i].x;
        roiBgrAverages[i - 1, 1] := rois[i].y;
        roiBgrAverages[i - 1, 2] := rois[i].z;
      }
    }
    var r := new PreprocessedHeartRateDataNumpy(faceLandmarks, roiBgrAverages, faceBgrAverage, data.timeNow);
    return Some(r);
  }

  /**
    Respiratory-rate data to arrays: one `(x, y)` row per tracked point and one
    cell per label, in input order; `reset` and the frame time pass through.
  */
  method PreprocessedProtoRrToNumpy<P(0), B(0)>(data: RrPreprocessedFrameData<P, B>)
    returns (result: PreprocessedRespiratoryRateDataNumpy<P, B>)
    ensures fresh(result) && fresh(result.trackedPoints) && fresh(result.trackedPointLabels)
    ensures result.trackedPoints.Length0 == |data.trackedPoint| && result.trackedPoints.Length1 == 2
    ensures RowsOf2(result.trackedPoints, data.trackedPoint, |data.trackedPoint|)
    ensures result.trackedPointLabels[..] == data.trackedPointLabel
    ensures result.reset == data.reset && result.timeNow == data.timeNow
  {
    var points := data.trackedPoint;
    var trackedPoints := new P[|points|, 2];
    for i := 0 to |points|
      invariant RowsOf2(trackedPoints, points, i)
    {
      trackedPoints[i, 0] := points[i].x;
      trackedPoints[i, 1] := points[i].y;
    }

    var labels := data.trackedPointLabel;
    var trackedPointLabels := new B[|labels|];
    for i := 0 to |labels|
      invariant RowsOf2(trackedPoints, points, |points|)
      invariant trackedPointLabels[..i] == labels[..i]
    {
      trackedPointLabels[i] := labels[i];
    }
    result := new PreprocessedRespiratoryRateDataNumpy(trackedPoints, trackedPointLabels, data.reset, data.timeNow);
  }
}
