/**
 * The simulated GPU of the Rust service: `compute` maps one element-wise
 * operation, chosen by task type, over the data. Square root is a parameter
 * standing for the floating-point `sqrt`.
 */
module GpuCompute {
  import opened Common

  /** Stand-ins for the device, queue and shader handles, all absent in the simulation. */
  datatype GpuCompute = GpuCompute(device: Option<nat>, queue: Option<nat>, shader: Option<nat>)

  datatype InitResult = Initialized | InitFailed(message: string)

  /** `GpuCompute::default()`: no handles. */
  function Default(): (g: GpuCompute)
    ensures g.device.None? && g.queue.None? && g.shader.None?
  {
    GpuCompute(None, None, None)
  }

  /** `init_gpu`: always succeeds and leaves every handle as it was. */
  function InitGpu(g: GpuCompute): (r: (GpuCompute, InitResult))
    ensures r.0 == g && r.1 == Initialized
  {
    (g, Initialized)
  }

  /** The element-wise operation a task type selects; unknown types double. */
  function Operation(taskType: string, sqrt: real -> real): (f: real -> real)
    ensures taskType == "square" ==> forall x :: f(x) == x * x
    ensures taskType == "sqrt" ==> forall x :: f(x) == sqrt(x)
    ensures taskType != "square" && taskType != "sqrt" ==> forall x :: f(x) == x + x
  {
    match taskType
    case "multiply" => x => x * 2.0
    case "square" => x => x * x
    case "sqrt" => sqrt
    case _ => x => x * 2.0
  }

  /** Applies `f` to every element, keeping the order. */
  function Map(xs: seq<real>, f: real -> real): (ys: seq<real>)
    ensures |ys| == |xs|
    ensures forall k :: 0 <= k < |xs| ==> ys[k] == f(xs[k])
  {
    if xs == [] then [] else [f(xs[0])] + Map(xs[1..], f)
  }

  /** `compute`: the selected operation mapped over the data. */
  function Compute(data: seq<real>, taskType: string, sqrt: real -> real): (result: seq<real>)
    ensures |result| == |data|
  {
    Map(data, Operation(taskType, sqrt))
  }

  /** "multiply" doubles and "square" squares each element; "sqrt" applies the square root. */
  lemma ComputeElementwise(data: seq<real>, sqrt: real -> real)
    ensures forall k :: 0 <= k < |data| ==> Compute(data, "multiply", sqrt)[k] == 2.0 * data[k]
    ensures forall k :: 0 <= k < |data| ==> Compute(data, "square", sqrt)[k] == data[k] * data[k]
    ensures forall k :: 0 <= k < |data| ==> Compute(data, "sqrt", sqrt)[k] == sqrt(data[k])
  {
  }

  /** Every task type other than "square" and "sqrt", "default" included, behaves as "multiply". */
  lemma UnknownTypeDoubles(data: seq<real>, taskType: string, sqrt: real -> real)
    requires taskType != "square" && taskType != "sqrt"
    ensures Compute(data, taskType, sqrt) == Compute(data, "multiply", sqrt)
  {
    var r, d := Compute(data, taskType, sqrt), Compute(data, "multiply", sqrt);
    assert forall k :: 0 <= k < |data| ==> r[k] == d[k];
  }

  /** The expectations of the service's test client for its sample vector. */
  lemma SampleVector(sqrt: real -> real)
    ensures Compute([1.0, 2.0, 3.0, 4.0, 5.0], "multiply", sqrt) == [2.0, 4.0, 6.0, 8.0, 10.0]
    ensures Compute([1.0, 2.0, 3.0, 4.0, 5.0], "square", sqrt) == [1.0, 4.0, 9.0, 16.0, 25.0]
  {
    var data := [1.0, 2.0, 3.0, 4.0, 5.0];
    var double, square := Operation("multiply", sqrt), Operation("square", sqrt);
    var doubled, squared := Map(data, double), Map(data, square);
    assert doubled[0] == 2.0 && doubled[1] == 4.0 && doubled[2] == 6.0 && doubled[3] == 8.0 && doubled[4] == 10.0;
    assert squared[0] == 1.0 && squared[1] == 4.0 && squared[2] == 9.0 && squared[3] == 16.0 && squared[4] == 25.0;
  }
}
