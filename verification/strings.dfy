/** String operations of Go's `strings` and `strconv` packages that the
    watcher, the builder and the shells rely on.  Strings are `seq<char>`. */
module Strings {
  import opened Wrappers

  /** strings.HasPrefix */
  predicate HasPrefix(s: string, prefix: string) {
    |prefix| <= |s| && s[..|prefix|] == prefix
  }

  /** strings.HasSuffix */
  predicate HasSuffix(s: string, suffix: string) {
    |suffix| <= |s| && s[|s| - |suffix|..] == suffix
  }

  /** Number of occurrences of `c` in `s`. */
  function Count(s: string, c: char): nat {
    if s == [] then 0 else (if s[0] == c then 1 else 0) + Count(s[1..], c)
  }

  /** strings.Split with a one-character separator: the fields between the
      separators, in order, empty fields included; "" gives [""]. */
  function Split(s: string, sep: char): (fields: seq<string>)
    ensures |fields| >= 1
  {
    if s == [] then [""]
    else
      var rest := Split(s[1..], sep);
      if s[0] == sep then [""] + rest else [[s[0]] + rest[0]] + rest[1..]
  }

  /** strings.Join with a one-character separator. */
  function Join(parts: seq<string>, sep: char): string {
    if parts == [] then ""
    else if |parts| == 1 then parts[0]
    else parts[0] + [sep] + Join(parts[1..], sep)
  }

  /** Prepending a character to the first part prepends it to the join. */
  lemma JoinPrepend(c: char, parts: seq<string>, sep: char)
    requires |parts| >= 1
    ensures Join([[c] + parts[0]] + parts[1..], sep) == [c] + Join(parts, sep)
  {
    var moved := [[c] + parts[0]] + parts[1..];
    assert moved[1..] == parts[1..];
  }

  /** Joining the fields of a split gives back the input. */
  lemma {:induction false} JoinSplit(s: string, sep: char)
    ensures Join(Split(s, sep), sep) == s
  {
    if s != [] {
      var rest := Split(s[1..], sep);
      JoinSplit(s[1..], sep);
      if s[0] == sep {
        assert ([""] + rest)[1..] == rest;
      } else {
        JoinPrepend(s[0], rest, sep);
      }
      assert s == [s[0]] + s[1..];
    }
  }

  /** Every field of a split is free of the separator, and there is one
      more field than there are separators. */
  lemma {:induction false} SplitFields(s: string, sep: char)
    ensures |Split(s, sep)| == Count(s, sep) + 1
    ensures forall k :: 0 <= k < |Split(s, sep)| ==> sep !in Split(s, sep)[k]
  {
    if s != [] {
      SplitFields(s[1..], sep);
      var rest := Split(s[1..], sep);
      var fields := Split(s, sep);
      if s[0] == sep {
        assert forall k :: 1 <= k < |fields| ==> fields[k] == rest[k - 1];
      } else {
        assert forall k :: 1 <= k < |fields| ==> fields[k] == rest[k];
        assert fields[0] == [s[0]] + rest[0];
      }
    }
  }

  /** The first field of a split: the text before the first separator, or
      all of `s` when there is none. */
  lemma {:induction false} FirstField(s: string, sep: char)
    ensures HasPrefix(s, Split(s, sep)[0])
    ensures sep !in Split(s, sep)[0]
    ensures sep !in s ==> Split(s, sep) == [s]
    ensures sep in s ==> s[|Split(s, sep)[0]|] == sep
  {
    if s != [] {
      FirstField(s[1..], sep);
      var rest := Split(s[1..], sep);
      if s[0] != sep {
        var f := [s[0]] + rest[0];
        assert s[..|f|] == [s[0]] + s[1..][..|rest[0]|];
        if sep in s {
          assert sep in s[1..];
          assert s[|f|] == s[1..][|rest[0]|];
        } else {
          assert sep !in s[1..];
          assert s == [s[0]] + s[1..];
        }
      }
    }
  }

  /** The last field of a split on `sep`: the text after the last separator. */
  function LastField(s: string, sep: char): string {
    var fields := Split(s, sep);
    fields[|fields| - 1]
  }

  /** How the last field of `s` follows from that of its tail. */
  lemma LastFieldStep(s: string, sep: char)
    requires s != []
    ensures (s[0] == sep || |Split(s[1..], sep)| > 1) ==>
      LastField(s, sep) == LastField(s[1..], sep) && |Split(s, sep)| > 1
    ensures (s[0] != sep && |Split(s[1..], sep)| == 1) ==>
      LastField(s, sep) == [s[0]] + LastField(s[1..], sep) && |Split(s, sep)| == 1
  {
  }

  /** A single field is the whole string. */
  lemma SingleField(s: string, sep: char)
    requires |Split(s, sep)| == 1
    ensures LastField(s, sep) == s
  {
    JoinSplit(s, sep);
  }

  /** The last field is a separator-free suffix of `s`, preceded by a
      separator unless it is all of `s`, which it is exactly when `s` has
      a single field. */
  lemma {:induction false} LastFieldSuffix(s: string, sep: char)
    ensures HasSuffix(s, LastField(s, sep))
    ensures sep !in LastField(s, sep)
    ensures LastField(s, sep) == s || s[|s| - |LastField(s, sep)| - 1] == sep
    ensures LastField(s, sep) == s <==> |Split(s, sep)| == 1
  {
    if s != [] {
      var t := s[1..];
      LastFieldSuffix(t, sep);
      LastFieldStep(s, sep);
      var f := LastField(t, sep);
      if s[0] == sep || |Split(t, sep)| > 1 {
        assert s[|s| - |f|..] == t[|t| - |f|..];
        if f == t {
          assert s[|s| - |f| - 1] == s[0];
        } else {
          assert s[|s| - |f| - 1] == t[|t| - |f| - 1];
        }
      } else {
        SingleField(t, sep);
        assert s == [s[0]] + t;
      }
    }
  }

  /** The decimal digit for `d`. */
  function DigitChar(d: nat): char
    requires d < 10
  {
    "0123456789"[d]
  }

  /** The value of a decimal digit, if `c` is one. */
  function DigitValue(c: char): Option<nat> {
    if '0' <= c <= '9' then Some(c as int - '0' as int) else None
  }

  /** strconv.Itoa for a non-negative value. */
  function NatToString(n: nat): (s: string)
    ensures |s| >= 1
    ensures |s| == 1 <==> n < 10
    ensures s[0] == '0' <==> n == 0
  {
    if n < 10 then [DigitChar(n)] else NatToString(n / 10) + [DigitChar(n % 10)]
  }

  /** Reads a non-empty string of decimal digits. */
  function ParseNat(s: string): Option<nat> {
    if s == [] then None
    else
      var d := DigitValue(s[|s| - 1]);
      if d.None? then None
      else if |s| == 1 then d
      else
        var high := ParseNat(s[..|s| - 1]);
        if high.None? then None else Some(high.value * 10 + d.value)
  }

  /** Decimal formatting and parsing are inverse. */
  lemma {:induction false} ParseNatToString(n: nat)
    ensures ParseNat(NatToString(n)) == Some(n)
  {
    var s := NatToString(n);
    if n >= 10 {
      ParseNatToString(n / 10);
      assert s[..|s| - 1] == NatToString(n / 10);
      assert DigitValue(s[|s| - 1]) == Some(n % 10);
    } else {
      assert DigitValue(s[0]) == Some(n);
    }
  }

  /** The decimal text of a natural number is all digits, so it holds no
      separator such as ' ', ':' or '/'. */
  lemma {:induction false} NatToStringDigits(n: nat)
    ensures forall k :: 0 <= k < |NatToString(n)| ==> '0' <= NatToString(n)[k] <= '9'
  {
    if n >= 10 {
      NatToStringDigits(n / 10);
    }
  }
}
