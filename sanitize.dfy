/// The query renderer of package `sanitize`: a `Query` is a list of parts (literal text,
/// back-references to a string argument, and typed slots), and `Query.Sanitize` turns it
/// and a positional argument list into one SQL string, or into an error.
///
/// The module gives the renderer twice: as the specification functions `RenderPart`,
/// `Walk` and `Render`, which say what each part produces and how the first failure
/// decides the result, and as the step-by-step method `Query.Sanitize`, proved equal to
/// `Render`. The properties of `Render` are proved in module `SanitizeProperties`.
module Sanitize {
  import opened Format

  datatype Option<T> = None | Some(value: T)

  /** A `time.Time`: an instant and the zone offset it is shown in. */
  datatype Timestamp = Timestamp(unixNanos: int, zoneOffsetSeconds: int)

  /** The two formatting routines the model does not spell out: `%f` on a float64 (given
      here by its IEEE-754 bit pattern) and `Format(time.RFC3339Nano)` on a time. */
  datatype Formatters = Formatters(float: bv64 -> string, time: Timestamp -> string)

  /** One part of a query template, by the Go type of the value stored in `Parts`:
      a `string` is literal text, an `int` is a back-reference to an argument, any of
      `int64`, `float64`, `bool`, `[]byte`, `nil`, `time.Time` is a typed slot (its own
      value is never read), and any other type is `Unsupported`. */
  datatype Part = Lit(text: string) | Ref(index: int) | Slot | Unsupported

  datatype Query = Query(parts: seq<Part>) {

    /** Renders the query with `args`. Every error comes with the empty string.
        Go panics when a back-reference that passes the cursor check indexes outside
        `args`; callers must not do that, which is what the precondition says. */
    method Sanitize(args: seq<Arg>, fmts: Formatters) returns (sql: string, err: Option<ErrorKind>)
      requires !Render(this, args, fmts).Panicked?
      ensures err.Some? ==> sql == ""
      ensures Render(this, args, fmts) == if err.Some? then Failed(err.value) else Rendered(sql)
    {
      if |args| != |parts| - 1 {
        return "", Some(ArityMismatch);
      }

      var builder := "";
      var argIdx := 0;
      var argUse: set<int> := {};

      var i := 0;
      while i < |parts|
        invariant 0 <= i <= |parts|
        invariant argIdx == i
        invariant Walk(parts, i, args, fmts) == Rendered(builder)
        invariant argUse == Marked(parts, i)
      {
        var part := parts[i];
        match part {
          case Lit(text) =>
            builder := builder + text;
          case Ref(n) =>
            if argIdx >= |args| {
              FirstFailureDecides(this, i, args, fmts);
              return "", Some(IndexOutOfRange);
            }
            if !(0 <= n < |args|) {
              FirstFailureDecides(this, i, args, fmts);
              assert false;
            }
            if !args[n].Str? {
              FirstFailureDecides(this, i, args, fmts);
              return "", Some(InvalidArgType);
            }
            builder := builder + args[n].s;
            argUse := argUse + {n};
          case Slot =>
            if argIdx >= |args| {
              FirstFailureDecides(this, i, args, fmts);
              return "", Some(IndexOutOfRange);
            }
            var arg := args[argIdx];
            var str: string;
            match arg {
              case I64(v) => str := Decimal(v);
              case F64(bits) => str := fmts.float(bits);
              case Bool(b) => str := if b then "true" else "false";
              case Bytes(data) => str := "'" + BytesAsText(data) + "'";
              case Null => str := "null";
              case Time(t) => str := "'" + fmts.time(t) + "'";
              case _ =>
                FirstFailureDecides(this, i, args, fmts);
                return "", Some(InvalidArgType);
            }
            argUse := argUse + {argIdx};
            // Enclosed in parentheses so that a value cannot join the text around it
            // into a line comment.
            str := "(" + str + ")";
            builder := builder + str;
          case Unsupported =>
            FirstFailureDecides(this, i, args, fmts);
            return "", Some(InvalidPartType);
        }
        argIdx := argIdx + 1;
        i := i + 1;
      }

      var j := 0;
      while j < |args|
        invariant 0 <= j <= |args|
        invariant forall u :: 0 <= u < j ==> u in argUse
      {
        if j !in argUse {
          return "", Some(ArgumentUnused);
        }
        j := j + 1;
      }
      return builder, None;
    }
  }

  /** One positional argument, by its Go type; `Other` is any type not listed. */
  datatype Arg =
    | Str(s: string)
    | I64(v: Int64)
    | F64(bits: bv64)
    | Bool(b: bool)
    | Bytes(data: seq<bv8>)
    | Null
    | Time(t: Timestamp)
    | Other

  /** The error kinds `Sanitize` reports (their message text is not modelled). */
  datatype ErrorKind =
    | ArityMismatch    // "invalid number of arguments"
    | IndexOutOfRange  // "unexpected argument index"
    | InvalidArgType   // "invalid arg type"
    | InvalidPartType  // "invalid Part type"
    | ArgumentUnused   // "argument %d was not used"

  /** The result of rendering: the SQL text, a reported error, or a Go runtime panic. */
  datatype Outcome = Rendered(sql: string) | Failed(error: ErrorKind) | Panicked

  /** `%s` on a `[]byte`: the bytes themselves, one character per byte. */
  function BytesAsText(data: seq<bv8>): (t: string)
    ensures |t| == |data|
    ensures forall i :: 0 <= i < |data| ==> t[i] as int == data[i] as int
  {
    seq(|data|, i requires 0 <= i < |data| => data[i] as char)
  }

  /** The text a typed slot writes for `a` before the parentheses are added, or None
      for an argument of a type the slot does not accept. */
  function FormatArg(a: Arg, fmts: Formatters): Option<string> {
    match a
    case I64(v) => Some(Decimal(v))
    case F64(bits) => Some(fmts.float(bits))
    case Bool(b) => Some(if b then "true" else "false")
    case Bytes(data) => Some("'" + BytesAsText(data) + "'")
    case Null => Some("null")
    case Time(t) => Some("'" + fmts.time(t) + "'")
    case Str(_) => None
    case Other => None
  }

  /** What part `p`, met when the cursor is at `k`, does: the text it appends, or how
      rendering stops. */
  function RenderPart(p: Part, k: nat, args: seq<Arg>, fmts: Formatters): Outcome {
    match p
    case Lit(text) => Rendered(text)
    case Ref(i) =>
      if k >= |args| then Failed(IndexOutOfRange)
      else if !(0 <= i < |args|) then Panicked
      else if args[i].Str? then Rendered(args[i].s)
      else Failed(InvalidArgType)
    case Slot =>
      if k >= |args| then Failed(IndexOutOfRange)
      else (match FormatArg(args[k], fmts)
            case Some(str) => Rendered("(" + str + ")")
            case None => Failed(InvalidArgType))
    case Unsupported => Failed(InvalidPartType)
  }

  /** The outcome of processing the first `n` parts in order, part `k` with the cursor at
      `k`: the concatenated text, or the outcome of the first part that did not render. */
  function Walk(ps: seq<Part>, n: nat, args: seq<Arg>, fmts: Formatters): (r: Outcome)
    requires n <= |ps|
    ensures r.Failed? ==> r.error != ArityMismatch && r.error != ArgumentUnused
  {
    if n == 0 then Rendered("")
    else
      match Walk(ps, n - 1, args, fmts)
      case Rendered(done) =>
        (match RenderPart(ps[n - 1], n - 1, args, fmts)
         case Rendered(piece) => Rendered(done + piece)
         case stop => stop)
      case stop => stop
  }

  /** The argument indices that part `p` at cursor `k` marks as used once it renders. */
  function MarkOf(p: Part, k: nat): set<int> {
    match p
    case Ref(i) => {i}
    case Slot => {k}
    case _ => {}
  }

  /** The contents of the `argUse` map after the first `n` parts have rendered. */
  function Marked(ps: seq<Part>, n: nat): set<int>
    requires n <= |ps|
  {
    if n == 0 then {} else Marked(ps, n - 1) + MarkOf(ps[n - 1], n - 1)
  }

  /** What `q.Sanitize(args...)` does: check the arity, render every part, then check that
      every argument index was marked as used. */
  function Render(q: Query, args: seq<Arg>, fmts: Formatters): (r: Outcome)
    ensures r == Failed(ArityMismatch) <==> |args| != |q.parts| - 1
    ensures r.Rendered? ==> forall j :: 0 <= j < |args| ==> j in Marked(q.parts, |q.parts|)
  {
    if |args| != |q.parts| - 1 then Failed(ArityMismatch)
    else
      match Walk(q.parts, |q.parts|, args, fmts)
      case Rendered(sql) =>
        if forall j :: 0 <= j < |args| ==> j in Marked(q.parts, |q.parts|) then Rendered(sql)
        else Failed(ArgumentUnused)
      case stop => stop
  }

  /** Once a walk stops, processing more parts does not change its outcome. */
  lemma {:induction false} WalkStopPersists(ps: seq<Part>, m: nat, n: nat, args: seq<Arg>, fmts: Formatters)
    requires m <= n <= |ps|
    requires !Walk(ps, m, args, fmts).Rendered?
    ensures Walk(ps, n, args, fmts) == Walk(ps, m, args, fmts)
  {
    if m < n {
      WalkStopPersists(ps, m, n - 1, args, fmts);
    }
  }

  /** When every part before `k` renders and part `k` does not, part `k` decides the
      result of the whole query. */
  lemma FirstFailureDecides(q: Query, k: nat, args: seq<Arg>, fmts: Formatters)
    requires |args| == |q.parts| - 1
    requires k < |q.parts|
    requires Walk(q.parts, k, args, fmts).Rendered?
    requires !RenderPart(q.parts[k], k, args, fmts).Rendered?
    ensures Render(q, args, fmts) == RenderPart(q.parts[k], k, args, fmts)
  {
    WalkStopPersists(q.parts, k + 1, |q.parts|, args, fmts);
  }
}
