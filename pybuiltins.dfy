/** The pieces of Python's built-in behaviour the extraction engine relies on:
    its exceptions, `str.split` with an explicit separator, slicing, sequence
    indexing with negative positions, and `int()` on a string. */
module PyBuiltins {

  /** The exception classes the model tells apart. */
  datatype PyError =
    | KeyError
    | IndexError
    | ValueError
    | TypeError
    | AttributeError
    | OverflowError
    | InvalidOperation   // decimal.InvalidOperation, raised for a malformed literal
    | TransportError     // whatever the fetch collaborator raises

  datatype Option<+T> = None | Some(value: T)

  /** A Python call either returns a value or raises. */
  datatype Result<+T> = Ok(value: T) | Err(error: PyError) {
    predicate IsFailure() { Err? }
    function PropagateFailure<U>(): Result<U> requires Err? { Err(error) }
    function Extract(): T requires Ok? { value }
  }

  // ---------------------------------------------------------------- collecting results

  /** A loop that appends one result per step and stops at the first
      exception. */
  function Collect<T>(rs: seq<Result<T>>): Result<seq<T>>
  {
    if rs == [] then Ok([])
    else
      var init :- Collect(rs[..|rs| - 1]);
      var last :- rs[|rs| - 1];
      Ok(init + [last])
  }

  /** Collecting succeeds exactly when every step does, and then yields
      every value in order; otherwise it raises the first step's error. */
  lemma {:induction false} CollectSpec<T>(rs: seq<Result<T>>)
    ensures Collect(rs).Ok? <==> forall i :: 0 <= i < |rs| ==> rs[i].Ok?
    ensures Collect(rs).Ok? ==>
      |Collect(rs).value| == |rs| && forall i :: 0 <= i < |rs| ==> Collect(rs).value[i] == rs[i].value
    ensures Collect(rs).Err? ==>
      exists i :: 0 <= i < |rs| && (forall j :: 0 <= j < i ==> rs[j].Ok?) && rs[i] == Err(Collect(rs).error)
  {
    if rs != [] {
      var n := |rs| - 1;
      var init := rs[..n];
      CollectSpec(init);
      assert forall i :: 0 <= i < n ==> init[i] == rs[i];
      var r := Collect(init);
      if r.Err? {
        var i :| 0 <= i < n && (forall j :: 0 <= j < i ==> init[j].Ok?) && init[i] == Err(r.error);
        assert rs[i] == init[i];
      } else if rs[n].Ok? {
        var vs := r.value + [rs[n].value];
        assert Collect(rs) == Ok(vs);
        forall i | 0 <= i < |rs| ensures vs[i] == rs[i].value {
          if i < n { assert vs[i] == r.value[i]; }
        }
      }
    }
  }

  // ---------------------------------------------------------------- str.split

  /** `s.split(sep)` for a one-character separator: every occurrence splits,
      and empty pieces are kept. */
  function Split(s: string, sep: char): (parts: seq<string>)
    ensures |parts| >= 1
    ensures forall i :: 0 <= i < |parts| ==> sep !in parts[i]
  {
    if s == [] then [""]
    else
      var rest := Split(s[1..], sep);
      if s[0] == sep then [""] + rest
      else [[s[0]] + rest[0]] + rest[1..]
  }

  /** `sep.join(parts)`. */
  function Join(parts: seq<string>, sep: char): string
    requires |parts| >= 1
  {
    if |parts| == 1 then parts[0] else parts[0] + [sep] + Join(parts[1..], sep)
  }

  /** Number of occurrences of `c` in `s`. */
  function Count(s: string, c: char): nat
  {
    if s == [] then 0 else (if s[0] == c then 1 else 0) + Count(s[1..], c)
  }

  /** Joining the pieces with the separator gives back the original string. */
  lemma {:induction false} SplitJoin(s: string, sep: char)
    ensures Join(Split(s, sep), sep) == s
  {
    if s != [] {
      SplitJoin(s[1..], sep);
      var rest := Split(s[1..], sep);
      if s[0] != sep {
        if |rest| > 1 {
          assert Join([[s[0]] + rest[0]] + rest[1..], sep)
              == [s[0]] + rest[0] + [sep] + Join(rest[1..], sep);
        }
      }
    }
  }

  /** There is one more piece than there are separators. */
  lemma {:induction false} SplitCount(s: string, sep: char)
    ensures |Split(s, sep)| == Count(s, sep) + 1
  {
    if s != [] {
      SplitCount(s[1..], sep);
    }
  }

  /** Without the separator the string is its own single piece. */
  lemma {:induction false} SplitWithoutSeparator(s: string, sep: char)
    requires sep !in s
    ensures Split(s, sep) == [s]
  {
    if s != [] {
      assert sep !in s[1..] by {
        forall i | 0 <= i < |s[1..]| ensures s[1..][i] != sep {
          assert s[1..][i] == s[i + 1];
        }
      }
      SplitWithoutSeparator(s[1..], sep);
      assert s[0] != sep;
      assert [s[0]] + s[1..] == s;
    }
  }

  /** The first piece is everything before the first separator, and the rest
      is the split of what follows it. */
  lemma {:induction false} SplitAtFirst(a: string, sep: char, b: string)
    requires sep !in a
    ensures Split(a + [sep] + b, sep) == [a] + Split(b, sep)
  {
    if a == [] {
      assert a + [sep] + b == [sep] + b;
      assert ([sep] + b)[1..] == b;
    } else {
      assert (a + [sep] + b)[1..] == a[1..] + [sep] + b;
      assert sep !in a[1..] by {
        forall i | 0 <= i < |a[1..]| ensures a[1..][i] != sep {
          assert a[1..][i] == a[i + 1];
        }
      }
      SplitAtFirst(a[1..], sep, b);
      assert [a[0]] + a[1..] == a;
    }
  }

  // ---------------------------------------------------------------- slicing and indexing

  /** `s[1:-1]`: drops the first and the last character; a string shorter
      than two characters becomes empty (slicing never raises). */
  function StripEnds(s: string): string
  {
    if |s| >= 2 then s[1..|s| - 1] else ""
  }

  /** `s[i]` on a Python list: negative positions count from the end. */
  function Subscript<T>(s: seq<T>, i: int): Result<T>
  {
    if 0 <= i < |s| then Ok(s[i])
    else if -|s| <= i < 0 then Ok(s[|s| + i])
    else Err(IndexError)
  }

  // ---------------------------------------------------------------- int()

  predicate IsDigit(c: char) { '0' <= c <= '9' }

  predicate AllDigits(s: string) { forall i :: 0 <= i < |s| ==> IsDigit(s[i]) }

  function DigitValue(c: char): nat requires IsDigit(c) { (c as int - '0' as int) as nat }

  /** The number a string of decimal digits spells, most significant first. */
  function DigitsValue(s: string): nat
    requires AllDigits(s)
  {
    if s == [] then 0 else DigitsValue(s[..|s| - 1]) * 10 + DigitValue(s[|s| - 1])
  }

  /** `int(s)` restricted to an optional sign followed by ASCII digits. */
  function ParseInt(s: string): (r: Result<int>)
    ensures r.Err? ==> r.error == ValueError
  {
    var negative := |s| > 0 && s[0] == '-';
    var body := if |s| > 0 && (s[0] == '+' || s[0] == '-') then s[1..] else s;
    if body != [] && AllDigits(body) then
      var magnitude: int := DigitsValue(body);
      Ok(if negative then -magnitude else magnitude)
    else Err(ValueError)
  }

  /** The digit spelling `str(n)` of a natural number. */
  function NatToString(n: nat): (s: string)
    ensures s != [] && AllDigits(s)
  {
    var last := [('0' as int + n % 10) as char];
    if n < 10 then last else NatToString(n / 10) + last
  }

  /** `str` and `int` are inverse on natural numbers. */
  lemma {:induction false} NatToStringValue(n: nat)
    ensures DigitsValue(NatToString(n)) == n
  {
    var s := NatToString(n);
    assert s[..|s| - 1] == (if n < 10 then [] else NatToString(n / 10));
    if n >= 10 {
      NatToStringValue(n / 10);
    }
  }

  /** Digit strings with leading zeros spell the same number. */
  lemma {:induction false} LeadingZeros(zeros: string, s: string)
    requires forall i :: 0 <= i < |zeros| ==> zeros[i] == '0'
    requires AllDigits(s)
    ensures AllDigits(zeros + s)
    ensures DigitsValue(zeros + s) == DigitsValue(s)
  {
    var t := zeros + s;
    assert AllDigits(t) by {
      forall i | 0 <= i < |t| ensures IsDigit(t[i]) {
        if i < |zeros| { assert t[i] == zeros[i]; } else { assert t[i] == s[i - |zeros|]; }
      }
    }
    if s == [] {
      assert t == zeros;
      ZerosValue(zeros);
    } else {
      var s' := s[..|s| - 1];
      assert t[..|t| - 1] == zeros + s';
      assert t[|t| - 1] == s[|s| - 1];
      LeadingZeros(zeros, s');
    }
  }

  lemma {:induction false} ZerosValue(zeros: string)
    requires forall i :: 0 <= i < |zeros| ==> zeros[i] == '0'
    ensures AllDigits(zeros) && DigitsValue(zeros) == 0
  {
    if zeros != [] {
      ZerosValue(zeros[..|zeros| - 1]);
    }
  }

  /** `int()` reads back any non-empty digit string as the number it spells. */
  lemma ParseIntDigits(s: string)
    requires s != [] && AllDigits(s)
    ensures ParseInt(s) == Ok(DigitsValue(s))
  {
    assert IsDigit(s[0]);
  }

  /** `int()` refuses a string that starts with a character other than a sign
      or a digit. */
  lemma ParseIntRejectsLead(c: char, s: string)
    requires !IsDigit(c) && c != '+' && c != '-'
    ensures ParseInt([c] + s) == Err(ValueError)
  {
    assert ([c] + s)[0] == c;
  }
}
