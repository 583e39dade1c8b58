/**
 * The Python values the scrapers handle: what a JSON document decodes to (for the keys whose
 * values the core inspects), Python truthiness, `Decimal(str(v))`, and dictionary lookups
 * that distinguish a missing key from a key bound to `None`.
 */
module Values {
  import opened Options
  import opened Text
  import opened Numbers

  /**
   * A decoded JSON value: `null`, a boolean, a number, a string, or a list/object of the
   * given number of entries (only its emptiness matters to the core).
   */
  datatype Value = VNone | VBool(b: bool) | VNum(n: Dec) | VStr(s: string) | VContainer(size: nat)

  /** `bool(d)` for a `Decimal`: false exactly for zero (a NaN is true). */
  predicate DecTruthy(d: Dec) {
    !(d.Fin? && d.value == 0.0)
  }

  /** `bool(v)` */
  predicate Truthy(v: Value) {
    match v
    case VNone => false
    case VBool(b) => b
    case VNum(n) => DecTruthy(n)
    case VStr(s) => s != []
    case VContainer(size) => size > 0
  }

  /** `str(v)` for the values whose text is fixed: `None`, `True` and `False`. */
  function Keyword(v: Value): string
    requires v.VNone? || v.VBool?
  {
    match v
    case VNone => "None"
    case VBool(b) => if b then "True" else "False"
  }

  /**
   * `Decimal(str(v))`, `None` when it raises. A number converts to itself; a string is read as
   * decimal text; the text of `None`, a boolean or a container is not decimal text.
   */
  function ToDecimal(v: Value): Option<Dec> {
    match v
    case VNum(n) => Some(n)
    case VStr(s) => ParseDecimal(s)
    case VNone => ParseDecimal(Keyword(v))
    case VBool(_) => ParseDecimal(Keyword(v))
    case VContainer(_) => None
  }

  /** Text that starts with a letter other than a sign, a digit or a dot, and is no special word, is not decimal text. */
  lemma WordDoesNotConvert(t: string)
    requires t != [] && IsStripped(t)
    requires !IsDigit(t[0]) && t[0] != '.' && t[0] != '-' && t[0] != '+'
    requires var w := Lower(t); w != "nan" && w != "snan" && w != "inf" && w != "infinity"
    ensures ParseDecimal(t).None?
  {
    StripOfStripped(t);
    match FindChar(t, '.')
    case None =>
      assert !AllDigits(t);
    case Some(i) =>
      assert i > 0;
      assert !AllDigits(t[..i]) by {
        assert t[..i][0] == t[0];
      }
  }

  /** `None`, `True` and `False` do not convert to a `Decimal`. */
  lemma KeywordsDoNotConvert(v: Value)
    requires v.VNone? || v.VBool?
    ensures ToDecimal(v).None?
  {
    var t := Keyword(v);
    var w := Lower(t);
    assert w[0] == LowerChar(t[0]) && |w| == |t|;
    assert w != "nan" && w != "snan" && w != "inf" && w != "infinity" by {
      assert "snan"[0] == 's';
    }
    WordDoesNotConvert(t);
  }

  /** `d.get(key)` as seen by the core: the key missing, bound to `None`, or bound to a value. */
  datatype Field<T> = Absent | Null | Has(value: T) {

    /** `d.get(key, default)`, with `None` for a value of `None`. */
    function GetOr(default: T): (r: Option<T>)
      ensures this.Absent? ==> r == Some(default)
      ensures this.Null? ==> r.None?
      ensures this.Has? ==> r == Some(this.value)
    {
      match this
      case Absent => Some(default)
      case Null => None
      case Has(v) => Some(v)
    }
  }
}
