/** Identifiers and small datatypes shared by every part of the model. */
module Common {

  /** UUIDs are their 128-bit numbers, so the order of rows by id is the order of numbers. */
  type Owner = nat
  type DocId = nat
  type Token = nat

  /** Instants and durations, in microseconds. */
  type Time = int

  type Url = string
  type Vector = seq<real>

  datatype Option<+T> = None | Some(value: T)

  datatype Result<+T, +E> = Ok(value: T) | Err(error: E)

  /** What a repository call answers: a value, or the exception it raises instead. */
  datatype Reply<+T> =
    | Answer(value: T)
    | OwnerErased
    | NotFound
    | Conflict
    | Duplicate
    | Invalid
    | Unavailable

  function Min(a: int, b: int): int {
    if a < b then a else b
  }

  ghost predicate NoDuplicates<T>(s: seq<T>) {
    forall i, j :: 0 <= i < j < |s| ==> s[i] != s[j]
  }

  function Utf8Length(s: string): nat {
    if s == "" then 0
    else
      var n := s[|s| - 1] as int;
      Utf8Length(s[..|s| - 1]) + (if n < 0x80 then 1 else if n < 0x800 then 2 else if n < 0x10000 then 3 else 4)
  }

  /** Character by character, one to four bytes each. */
  lemma {:induction false} Utf8Adds(s: string, t: string)
    ensures Utf8Length(s + t) == Utf8Length(s) + Utf8Length(t)
    ensures |s| == 1 ==> 1 <= Utf8Length(s) <= 4
    ensures |s| == 1 ==> (Utf8Length(s) == 1 <==> s[0] <= '\U{7F}') && (Utf8Length(s) <= 2 <==> s[0] <= '\U{7FF}')
    ensures |s| == 1 ==> (Utf8Length(s) <= 3 <==> s[0] <= '\U{FFFF}')
  {
    if |s| == 1 {
      assert s[..0] == "";
    }
    if t == "" {
      assert s + t == s;
    } else {
      Utf8Adds(s, t[..|t| - 1]);
      assert (s + t)[..|s + t| - 1] == s + t[..|t| - 1];
    }
  }
}
