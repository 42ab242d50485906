/** Small building blocks shared by the quiz and poll models: optional
    request fields, the JavaScript truthiness the handlers test, the option
    type enumeration both schemas declare, the schemas' question limit, and
    generic sequence helpers (all-or-nothing casting, first-index search
    and summation). */
module Common {

  datatype Option<+T> = None | Some(value: T) {
    /** The value, or the schema default when the field is absent. */
    function GetOr(default: T): T {
      match this
      case Some(v) => v
      case None => default
    }
  }

  /** The three values of the `optionType` enumeration of both schemas. */
  datatype OptionType = Text | Image | TextImage

  /** Why a create request is answered with status 400: the top-level
      shape check, the per-question shape check, the quiz-only
      correct-option check, or a failed save (schema validation). */
  datatype CreateError = InvalidInput | InvalidQuestion | NoCorrectOption | SaveFailed

  /** The schemas' `arrayLimit` bound on the number of questions. */
  const MaxQuestions: nat := 5

  /** `arrayLimit(val)`: at most five questions. */
  predicate ArrayLimit<T>(xs: seq<T>) {
    |xs| <= MaxQuestions
  }

  /** JavaScript truthiness of an optional string field, which is also what
      Mongoose's `required` accepts for a String path: present and not
      the empty string. */
  predicate Truthy(s: Option<string>) {
    s.Some? && s.value != ""
  }

  function OptionTypeName(t: OptionType): string {
    match t
    case Text => "text"
    case Image => "image"
    case TextImage => "textImage"
  }

  /** The enum validator of `optionType`: exactly the three names are
      accepted, each as its own value. */
  function ParseOptionType(s: string): (r: Option<OptionType>)
    ensures forall t :: r == Some(t) <==> s == OptionTypeName(t)
  {
    if s == "text" then Some(Text)
    else if s == "image" then Some(Image)
    else if s == "textImage" then Some(TextImage)
    else None
  }

  /** Casting an array field element by element: the array is accepted
      exactly when every element is, and then each element of the result
      is the cast of the element at the same position. */
  function CastAll<A, B>(xs: seq<A>, f: A -> Option<B>): (r: Option<seq<B>>)
    ensures r.Some? <==> forall i :: 0 <= i < |xs| ==> f(xs[i]).Some?
    ensures r.Some? ==> |r.value| == |xs| && forall i :: 0 <= i < |xs| ==> f(xs[i]) == Some(r.value[i])
  {
    if xs == [] then Some([])
    else
      match f(xs[0])
      case None => None
      case Some(y) =>
        match CastAll(xs[1..], f)
        case None => None
        case Some(ys) => Some([y] + ys)
  }

  /** The first position holding `x`, or None when there is none. */
  function IndexOf<T(==)>(s: seq<T>, x: T): (r: Option<nat>)
    ensures r.Some? ==> r.value < |s| && s[r.value] == x && forall j :: 0 <= j < r.value ==> s[j] != x
    ensures r.None? <==> forall j :: 0 <= j < |s| ==> s[j] != x
  {
    if s == [] then None
    else if s[0] == x then Some(0)
    else
      match IndexOf(s[1..], x)
      case None => None
      case Some(k) => Some(k + 1)
  }

  /** The sum of `f` over the elements of `s`. */
  function SumOf<T>(s: seq<T>, f: T -> int): int {
    if s == [] then 0 else f(s[0]) + SumOf(s[1..], f)
  }

  lemma {:induction false} SumOfConcat<T>(a: seq<T>, b: seq<T>, f: T -> int)
    ensures SumOf(a + b, f) == SumOf(a, f) + SumOf(b, f)
  {
    if a == [] {
      assert a + b == b;
    } else {
      assert (a + b)[1..] == a[1..] + b;
      SumOfConcat(a[1..], b, f);
    }
  }

  /** Replacing one element changes the sum by the difference of the two. */
  lemma {:induction false} SumOfUpdate<T>(s: seq<T>, j: nat, x: T, f: T -> int)
    requires j < |s|
    ensures SumOf(s[j := x], f) == SumOf(s, f) - f(s[j]) + f(x)
  {
    if j == 0 {
      assert s[j := x][1..] == s[1..];
    } else {
      assert s[j := x][1..] == s[1..][j - 1 := x];
      SumOfUpdate(s[1..], j - 1, x, f);
    }
  }
}
