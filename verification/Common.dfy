/** Vocabulary shared by the component models. */
module Common {

  /** An instant, in whole microseconds; every stored timestamp is a UTC instant. */
  type Time = int

  datatype Option<+T> = None | Some(value: T) {
    function GetOr(default: T): T {
      if Some? then value else default
    }
  }

  predicate NoDuplicates<T(==)>(s: seq<T>) {
    forall i, j :: 0 <= i < j < |s| ==> s[i] != s[j]
  }

  ghost predicate Prefix<T>(s: seq<T>, t: seq<T>) {
    |s| <= |t| && t[..|s|] == s
  }

  /** The elements of a sequence, as a set. */
  function Elements<T(==,!new)>(s: seq<T>): (r: set<T>)
    ensures forall x :: x in r <==> x in s
  {
    set x | x in s
  }

  function Min(a: int, b: int): int {
    if a <= b then a else b
  }

  function Max(a: int, b: int): int {
    if a >= b then a else b
  }

  /** The element when the condition holds. */
  function If<T>(condition: bool, x: T): set<T> {
    if condition then {x} else {}
  }

  /** The weight when the condition holds. */
  function Weight(condition: bool, w: int): int {
    if condition then w else 0
  }

  /** Strict code-point order of strings. */
  predicate Before(a: string, b: string) {
    if b == "" then false
    else if a == "" then true
    else a[0] < b[0] || (a[0] == b[0] && Before(a[1..], b[1..]))
  }

  lemma {:induction false} BeforeTotal(a: string, b: string)
    ensures Before(a, b) || Before(b, a) || a == b
    ensures !(Before(a, b) && Before(b, a)) && (Before(a, b) ==> a != b)
  {
    if a != "" && b != "" {
      BeforeTotal(a[1..], b[1..]);
      assert a == [a[0]] + a[1..] && b == [b[0]] + b[1..];
    }
  }

  lemma {:induction false} BeforeTransitive(a: string, b: string, c: string)
    requires Before(a, b) && Before(b, c)
    ensures Before(a, c)
  {
    if a != "" && a[0] == b[0] && b[0] == c[0] {
      BeforeTransitive(a[1..], b[1..], c[1..]);
    }
  }

  function Decimal(n: nat): string {
    (if n >= 10 then Decimal(n / 10) else "") + ["0123456789"[n % 10]]
  }

  lemma DigitIsInjective(d: nat, e: nat)
    requires d < 10 && e < 10 && "0123456789"[d] == "0123456789"[e]
    ensures d == e
  {
  }

  lemma {:induction false} DecimalIsInjective(m: nat, n: nat)
    requires Decimal(m) == Decimal(n)
    ensures m == n
  {
    DecimalLast(m);
    DecimalLast(n);
    DigitIsInjective(m % 10, n % 10);
    if m >= 10 && n >= 10 {
      assert Decimal(m / 10) == Decimal(m)[..|Decimal(m)| - 1] == Decimal(n / 10);
      DecimalIsInjective(m / 10, n / 10);
    }
  }

  lemma {:induction false} DecimalLast(n: nat)
    ensures |Decimal(n)| >= 1 && Decimal(n)[|Decimal(n)| - 1] == "0123456789"[n % 10]
    ensures n >= 10 ==> |Decimal(n)| >= 2 && Decimal(n / 10) == Decimal(n)[..|Decimal(n)| - 1]
    ensures n < 10 ==> |Decimal(n)| == 1
    ensures ':' !in Decimal(n)
  {
    if n >= 10 {
      DecimalLast(n / 10);
    }
  }
}
