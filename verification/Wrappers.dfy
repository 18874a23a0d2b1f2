/** Small datatypes and sequence helpers shared by the other modules. */
module Wrappers {
  datatype Option<+T> = None | Some(value: T)

  /** A Go call returns a value, returns an error, or panics. */
  datatype Outcome<+T> = Ok(value: T) | Err | Panic

  function Reverse<T>(s: seq<T>): (r: seq<T>)
    ensures |r| == |s|
    ensures forall k :: 0 <= k < |s| ==> r[k] == s[|s| - 1 - k]
  {
    if s == [] then [] else Reverse(s[1..]) + [s[0]]
  }

  lemma ReverseTwice<T>(s: seq<T>)
    ensures Reverse(Reverse(s)) == s
  {
  }

  lemma ConcatAssociates<T>(a: seq<T>, b: seq<T>, c: seq<T>)
    ensures a + (b + c) == (a + b) + c
  {
  }

  predicate NoDuplicates<T(==)>(s: seq<T>) {
    forall i, j :: 0 <= i < j < |s| ==> s[i] != s[j]
  }

  function Elements<T>(s: seq<T>): set<T> {
    set x | x in s
  }

  lemma ElementsConcat<T>(a: seq<T>, b: seq<T>)
    ensures Elements(a + b) == Elements(a) + Elements(b)
  {
  }

  lemma {:induction false} LongestName(names: set<string>) returns (n: nat)
    ensures forall s :: s in names ==> |s| <= n
  {
    if names == {} {
      n := 0;
    } else {
      var s :| s in names;
      n := LongestName(names - {s});
      n := if |s| > n then |s| else n;
    }
  }

  lemma {:induction false} FreshName(names: set<string>) returns (name: string)
    ensures name !in names
  {
    var n := LongestName(names);
    name := seq(n + 1, _ => 'x');
    assert |name| > n;
  }

  function Digit(n: nat): char
    requires n < 10
  {
    '0' + n as char
  }

  /** Decimal text of a number. */
  function Itoa(n: nat): string {
    if n < 10 then [Digit(n)] else Itoa(n / 10) + [Digit(n % 10)]
  }
}
