/** The Python entry point: it switches the requested features on, runs the
    dataset through the pipeline and hands back a status code, a message, the
    result shape and a fresh copy of the result buffer. Reading the dataset
    and processing it happen outside this model; their outcomes (two failure
    flags, the label registry and the result buffer they leave behind) are
    parameters. */
module Invoker {
  import opened FeatureCodes
  import opened FeatureGate
  import Registry

  /** The returned tuple: status, details, nx (features), ny (labels) and the
      nx-by-ny buffer, null on every error. */
  datatype Invocation = Invocation(code: int, details: string, nx: nat, ny: nat, buf: array?<real>)

  /** The status code the invoker returns, from its checks in order: dataset
      structure, processing, no labels, no features, buffer size. */
  function Status(datasetFailed: bool, processingFailed: bool, ny: nat, nx: nat, bufSize: nat): (code: int)
    ensures 0 <= code <= 5
    ensures code == 0 <==> !datasetFailed && !processingFailed && ny > 0 && nx > 0 && ny * nx == bufSize
    ensures datasetFailed ==> code == 1
    ensures code == 5 ==> ny * nx != bufSize
  {
    if datasetFailed then 1
    else if processingFailed then 2
    else if ny == 0 then 3
    else if nx == 0 then 4
    else if ny * nx != bufSize then 5
    else 0
  }

  /** The earlier checks win: a dataset error hides everything, a processing
      error hides the shape checks, and a missing label is reported before a
      missing feature whatever the feature count. */
  lemma StatusPrecedence(datasetFailed: bool, processingFailed: bool, ny: nat, nx: nat, bufSize: nat)
    ensures !datasetFailed && processingFailed ==> Status(datasetFailed, processingFailed, ny, nx, bufSize) == 2
    ensures !datasetFailed && !processingFailed && ny == 0 ==>
      Status(datasetFailed, processingFailed, ny, nx, bufSize) == 3
    ensures Status(datasetFailed, processingFailed, ny, nx, bufSize) == 4 ==> ny > 0 && nx == 0
  {
  }

  /** Decimal digit for 0 .. 9. */
  function Digit(d: nat): (c: char)
    requires d < 10
    ensures '0' <= c <= '9'
  {
    ('0' as int + d) as char
  }

  /** The digit value of a decimal digit character. */
  function DigitValue(c: char): (d: nat)
    requires '0' <= c <= '9'
    ensures d < 10 && Digit(d) == c
  {
    c as int - '0' as int
  }

  /** `n` written in decimal, as a stream inserter writes an unsigned count. */
  function Decimal(n: nat): (s: string)
    ensures |s| >= 1
    ensures forall i | 0 <= i < |s| :: '0' <= s[i] <= '9'
    ensures |s| > 1 ==> s[0] != '0'
  {
    if n < 10 then [Digit(n)] else Decimal(n / 10) + [Digit(n % 10)]
  }

  /** The value of a string of decimal digits. */
  function DecimalValue(s: string): nat
    requires forall i | 0 <= i < |s| :: '0' <= s[i] <= '9'
  {
    if s == [] then 0 else 10 * DecimalValue(s[..|s| - 1]) + DigitValue(s[|s| - 1])
  }

  /** Reading a written count gives the count back. */
  lemma {:induction false} DecimalRoundTrip(n: nat)
    ensures DecimalValue(Decimal(n)) == n
    decreases n
  {
    if n >= 10 {
      var q, d := n / 10, n % 10;
      var s := Decimal(n);
      assert s == Decimal(q) + [Digit(d)];
      assert s[..|s| - 1] == Decimal(q);
      DecimalRoundTrip(q);
      assert DigitValue(Digit(d)) == d;
      assert DecimalValue(s) == 10 * q + d;
    }
  }

  /** The details string that accompanies each status code; the file name
      and line number the shape-mismatch message ends with are left out. */
  function Details(code: int, ny: nat, nx: nat, bufSize: nat): (r: string)
    ensures r != "" <==> 1 <= code <= 5
  {
    match code
    case 1 => "Dataset structure error"
    case 2 => "Error while calculating features"
    case 3 => "No unique labels were processed"
    case 4 => "No features were calculated"
    case 5 =>
      "ERROR: Result shape [ny=uniqueLabels.size()=" + Decimal(ny) + " X nx=" + Decimal(nx)
      + " = " + Decimal(ny * nx) + "] mismatches with the result buffer size " + Decimal(bufSize)
    case _ => ""
  }

  /** Each non-zero status has its own message: two equal non-empty
      messages come from the same status code. */
  lemma DetailsIdentifyCode(c1: int, c2: int, ny1: nat, nx1: nat, size1: nat,
                            ny2: nat, nx2: nat, size2: nat)
    requires Details(c1, ny1, nx1, size1) != ""
    requires Details(c1, ny1, nx1, size1) == Details(c2, ny2, nx2, size2)
    ensures c1 == c2
  {
  }

  /** A flag list with every flag set counts all of its positions. */
  lemma {:induction false} AllSetCountsAll(flags: seq<bool>)
    requires forall i | 0 <= i < |flags| :: flags[i]
    ensures CountTrue(flags) == |flags|
  {
    if flags != [] {
      AllSetCountsAll(flags[..|flags| - 1]);
    }
  }

  /** A freshly allocated array holding `src` element by element. */
  method CopyBuffer(src: seq<real>) returns (a: array<real>)
    ensures fresh(a) && a[..] == src
  {
    a := new real[|src|];
    for i := 0 to |src|
      invariant a[..i] == src[..i]
    {
      a[i] := src[i];
    }
  }

  /** Switches every feature on (the requested list cannot switch any off),
      then checks the outcome of reading and processing the dataset and
      copies the result buffer. Because every feature is on, nx is COUNT and
      status 4 is never returned. */
  method FeatureSetInvoker(fs: FeatureSet, desiredFeatures: seq<FeatureCode>, datasetFailed: bool,
                           processingFailed: bool, reg: Registry.LabelRegistry, calcResultBuf: seq<real>)
    returns (r: Invocation)
    requires fs.Valid()
    modifies fs.enabledFeatures
    ensures forall c | 0 <= c < COUNT :: fs.enabledFeatures[c]
    ensures r.code == Status(datasetFailed, processingFailed, |reg.uniqueLabels|, COUNT, |calcResultBuf|)
    ensures r.code != 4
    ensures r.details == Details(r.code, |reg.uniqueLabels|, COUNT, |calcResultBuf|)
    ensures r.code != 0 ==> r.nx == 0 && r.ny == 0 && r.buf == null
    ensures r.code == 0 ==>
      && r.nx == COUNT && r.ny == |reg.uniqueLabels|
      && r.buf != null && fresh(r.buf) && r.buf[..] == calcResultBuf
  {
    fs.EnableAll(true);
    fs.EnableFeatures(desiredFeatures);
    if datasetFailed {
      return Invocation(1, Details(1, 0, 0, 0), 0, 0, null);
    }
    if processingFailed {
      return Invocation(2, Details(2, 0, 0, 0), 0, 0, null);
    }
    var ny := |reg.uniqueLabels|;
    var nx := fs.NumOfEnabled();
    AllSetCountsAll(fs.enabledFeatures[..]);
    var len := ny * nx;
    if ny == 0 {
      return Invocation(3, Details(3, 0, 0, 0), 0, 0, null);
    }
    if nx == 0 {
      // Status 4 ("No features were calculated") cannot be reached: every
      // flag was set above, so nx is COUNT.
      assert false;
    }
    if len != |calcResultBuf| {
      return Invocation(5, Details(5, ny, nx, |calcResultBuf|), 0, 0, null);
    }
    var retbuf := CopyBuffer(calcResultBuf);
    return Invocation(0, "", nx, ny, retbuf);
  }
}
