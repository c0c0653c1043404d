/**
 * The Python values the mutators inspect: scalars read from config objects
 * and decorator keyword arguments, and the containers the namespaced trigger
 * builds. Truthiness and `str()` follow Python's rules for these types.
 */
module PyValues {

  /** `None`, `bool`, `int` and `str`. */
  datatype Scalar = Null | Bool(b: bool) | Int(i: int) | Str(s: string)

  /** A keyword-argument value: a scalar, a list or a dict. */
  datatype Value = Atom(scalar: Scalar) | List(items: seq<Value>) | Dict(entries: map<string, Value>)

  /** Python's `bool(x)` on a scalar. */
  predicate Truthy(x: Scalar) {
    match x
    case Null => false
    case Bool(b) => b
    case Int(i) => i != 0
    case Str(s) => s != ""
  }

  /** `d.get(key, default)` on a config object. */
  function Get(d: map<string, Scalar>, key: string, default: Scalar): Scalar {
    if key in d then d[key] else default
  }

  function DigitChar(d: nat): (c: char)
    requires d < 10
    ensures '0' <= c <= '9'
  {
    "0123456789"[d]
  }

  /** Decimal digits of `n`, most significant first. */
  function NatToDecimal(n: nat): (r: string)
    ensures |r| >= 1
    ensures n >= 10 ==> |r| >= 2
    ensures forall k :: 0 <= k < |r| ==> '0' <= r[k] <= '9'
  {
    if n < 10 then [DigitChar(n)] else NatToDecimal(n / 10) + [DigitChar(n % 10)]
  }

  /** `str(x)`, which is also what `"%s" % x` renders: empty only for the empty string, with a sign only for a negative number. */
  function PyStr(x: Scalar): (r: string)
    ensures r == "" <==> x == Str("")
    ensures x.Int? ==> |r| >= 1 && (r[0] == '-' <==> x.i < 0)
  {
    match x
    case Null => "None"
    case Bool(b) => if b then "True" else "False"
    case Int(i) => if i < 0 then "-" + NatToDecimal(-i) else NatToDecimal(i)
    case Str(s) => s
  }

  /** A scalar that is not a string is falsy exactly when it renders as `None`, `False` or `0`. */
  lemma TruthyRendered(x: Scalar)
    requires !x.Str?
    ensures Truthy(x) <==> PyStr(x) != "None" && PyStr(x) != "False" && PyStr(x) != "0"
  {
    if x.Int? && x.i > 0 && x.i < 10 {
      assert PyStr(x)[0] == DigitChar(x.i) != '0';
    }
  }
}
