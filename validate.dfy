/**
 * `validate(schema, data)` and `ValidationError.fromZodError`: run a schema, return its parsed
 * value, or fail with a `ValidationError` whose issues are the schema's issues with their paths
 * flattened to dotted strings.
 */
module Validation {
  import opened Wrappers
  import opened Text
  import opened Json
  import opened Zod

  const InvalidRequest := "Invalid request"
  const RootPath := "root"

  datatype ValidationIssue = ValidationIssue(path: string, message: string)

  datatype ValidationError = ValidationError(message: string, issues: seq<ValidationIssue>)

  /** A path segment as `Array.prototype.join` prints it. */
  function SegmentText(segment: PathSegment): string {
    match segment
    case Key(name) => name
    case Index(position) => DecimalString(position)
  }

  function SegmentTexts(path: seq<PathSegment>): (texts: seq<string>)
    ensures |texts| == |path|
    ensures forall i :: 0 <= i < |path| ==> texts[i] == SegmentText(path[i])
  {
    if path == [] then [] else [SegmentText(path[0])] + SegmentTexts(path[1..])
  }

  /** `issue.path.join('.')` */
  function JoinPath(path: seq<PathSegment>): string {
    Join(SegmentTexts(path), ".")
  }

  /** The dotted join is empty only for the empty path and for a single empty key. */
  lemma JoinPathIsEmpty(path: seq<PathSegment>)
    ensures JoinPath(path) == [] <==> path == [] || path == [Key([])]
  {
    var texts := SegmentTexts(path);
    JoinIsEmpty(texts, ".");
    if |path| == 1 && texts == [[]] {
      assert path[0].Key? by {
        if path[0].Index? {
          assert |DecimalString(path[0].position)| >= 1;
        }
      }
    }
  }

  /** A join of two or more parts contains the separator, so it is never `root`. */
  lemma JoinPathOfSeveral(path: seq<PathSegment>)
    requires |path| >= 2
    ensures JoinPath(path) != RootPath
  {
    var texts := SegmentTexts(path);
    var joined := Join(texts, ".");
    var k := |texts[0]|;
    assert OccursAt(joined, ".", k);
    assert joined[k..k + 1] == "." && joined[k] == joined[k..k + 1][0];
    assert RootPath[0] != '.' && RootPath[1] != '.' && RootPath[2] != '.' && RootPath[3] != '.';
  }

  /** Only the single key `root` joins to `root`. */
  lemma JoinPathIsRoot(path: seq<PathSegment>)
    ensures JoinPath(path) == RootPath <==> path == [Key(RootPath)]
  {
    if |path| >= 2 {
      JoinPathOfSeveral(path);
    } else if |path| == 1 {
      assert SegmentTexts(path) == [SegmentText(path[0])];
      if path[0].Index? {
        assert DecimalString(path[0].position) != RootPath by {
          assert IsDigit(DecimalString(path[0].position)[0]);
        }
      }
    }
  }

  /**
   * `issue.path.join('.') || 'root'`: never empty; `root` for the object itself (the empty
   * path), for a single empty key and for a key that is literally `root`.
   */
  function IssuePath(path: seq<PathSegment>): (p: string)
    ensures p != []
    ensures p == RootPath <==> path == [] || path == [Key([])] || path == [Key(RootPath)]
    ensures path != [] && path != [Key([])] ==> p == JoinPath(path)
  {
    JoinPathIsEmpty(path);
    JoinPathIsRoot(path);
    var joined := JoinPath(path);
    if joined == [] then RootPath else joined
  }

  function ToValidationIssue(issue: Issue): ValidationIssue {
    ValidationIssue(IssuePath(issue.path), issue.message)
  }

  /** `ValidationError.fromZodError(error)`: one issue per zod issue, in order, messages kept. */
  function FromZodError(issues: seq<Issue>): (e: ValidationError)
    ensures e.message == InvalidRequest
    ensures |e.issues| == |issues|
    ensures forall i :: 0 <= i < |issues| ==>
      e.issues[i].message == issues[i].message && e.issues[i].path == IssuePath(issues[i].path)
  {
    ValidationError(InvalidRequest, seq(|issues|, i requires 0 <= i < |issues| => ToValidationIssue(issues[i])))
  }

  /**
   * What `validate` throws: the `ValidationError` it builds from a rejection, or whatever
   * `safeParse` itself threw, which passes through unchanged.
   */
  datatype ValidateError = Invalid(validation: ValidationError) | Escaped(description: string)

  /** `validate(schema, data)`: the schema's parsed value, or what it throws. */
  function Validate<T>(schema: Option<Value> -> SafeParseResult<T>, data: Option<Value>): (r: Result<T, ValidateError>)
    ensures r.Ok? <==> schema(data).Parsed?
    ensures r.Ok? ==> r.value == schema(data).data
    ensures schema(data).Rejected? ==> r == Err(Invalid(FromZodError(schema(data).issues)))
    ensures schema(data).Raised? ==> r == Err(Escaped(schema(data).description))
  {
    match schema(data)
    case Parsed(value) => Ok(value)
    case Rejected(issues) => Err(Invalid(FromZodError(issues)))
    case Raised(description) => Err(Escaped(description))
  }
}
