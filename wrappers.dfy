/** Option, Result and the error kinds used throughout the model.
    Every Java exception the modelled code throws (or lets through) becomes a
    `Failure` carrying the exception class and the thing its message names. */
module Wrappers {

  datatype Option<+T> = None | Some(value: T)

  /** The Java exception classes that the modelled code raises. */
  datatype ErrorKind =
    | IoError           // java.io.IOException
    | FormatError       // htsjdk.samtools.SAMException
    | IllegalArgument   // java.lang.IllegalArgumentException
    | IllegalState      // java.lang.IllegalStateException
    | XmlError          // javax.xml.stream.XMLStreamException
    | NumberFormat      // java.lang.NumberFormatException
    | ClassCast         // java.lang.ClassCastException
    | NullPointer       // java.lang.NullPointerException
    | IndexOutOfBounds  // java.lang.ArrayIndexOutOfBoundsException

  /** An exception: its class and the path, tag or key its message names. */
  datatype Error = Error(kind: ErrorKind, subject: string)

  datatype Result<+T> = Success(value: T) | Failure(error: Error)

  /** 32-bit signed Java `int`. */
  const MinInt32: int := -0x8000_0000
  const MaxInt32: int := 0x7FFF_FFFF
  type Int32 = x: int | MinInt32 <= x <= MaxInt32

  /** An unsigned byte as returned by `InputStream.read()`. */
  type Byte = b: int | 0 <= b < 256

  type Bytes = seq<Byte>


  /** `f` applied to the elements in order, as a Java loop or stream does it: the first
      failure is the result. */
  function MapResult<A, B>(xs: seq<A>, f: A -> Result<B>): (r: Result<seq<B>>)
    ensures r.Success? <==> forall i :: 0 <= i < |xs| ==> f(xs[i]).Success?
    ensures r.Success? ==> |r.value| == |xs| && forall i :: 0 <= i < |xs| ==> f(xs[i]) == Success(r.value[i])
  {
    if xs == [] then Success([])
    else
      var front := xs[..|xs| - 1];
      assert forall i :: 0 <= i < |front| ==> front[i] == xs[i];
      match MapResult(front, f)
      case Failure(e) => Failure(e)
      case Success(ys) =>
        match f(xs[|xs| - 1])
        case Failure(e) => Failure(e)
        case Success(y) => Success(ys + [y])
  }

  /** Once a prefix fails, the whole list fails with the same error. */
  lemma {:induction false} MapResultFailurePrefix<A, B>(xs: seq<A>, f: A -> Result<B>, k: nat)
    requires k <= |xs| && MapResult(xs[..k], f).Failure?
    ensures MapResult(xs, f) == MapResult(xs[..k], f)
    decreases |xs| - k
  {
    if k < |xs| {
      assert xs[..k + 1][..k] == xs[..k];
      MapResultFailurePrefix(xs, f, k + 1);
    } else {
      assert xs[..k] == xs;
    }
  }

}
