/**
 * The JavaScript string and array primitives the command-line code relies on:
 * `String.prototype.split` with a one-character separator and `Array.prototype.join`.
 */
module Strings {

  /** `s.split(sep)`: the pieces between separators, empty pieces included. */
  function Split(s: string, sep: char): (parts: seq<string>)
    ensures |parts| >= 1
    ensures forall i :: 0 <= i < |parts| ==> sep !in parts[i]
    decreases |s|
  {
    if s == [] then [""]
    else
      var rest := Split(s[1..], sep);
      if s[0] == sep then [""] + rest
      else [[s[0]] + rest[0]] + rest[1..]
  }

  /** `parts.join(sep)`. */
  function Join(parts: seq<string>, sep: string): string
  {
    if parts == [] then ""
    else if |parts| == 1 then parts[0]
    else parts[0] + sep + Join(parts[1..], sep)
  }

  /** Decimal rendering of a natural number, as a template literal prints it. */
  function NatToString(n: nat): string
  {
    if n < 10 then [DigitChar(n)] else NatToString(n / 10) + [DigitChar(n % 10)]
  }

  function DigitChar(d: nat): (c: char)
    requires d < 10
    ensures '0' <= c <= '9' && c as int - '0' as int == d
  {
    "0123456789"[d]
  }

  predicate AllDigits(s: string)
  {
    forall i :: 0 <= i < |s| ==> '0' <= s[i] <= '9'
  }

  /** The number a string of decimal digits denotes. */
  function DecimalValue(s: string): nat
    requires AllDigits(s)
    decreases |s|
  {
    if s == [] then 0
    else
      var n := |s| - 1;
      assert AllDigits(s[..n]);
      DecimalValue(s[..n]) * 10 + (s[n] as int - '0' as int)
  }

  /** The rendering is a non-empty run of digits that reads back as the number. */
  lemma {:induction false} NatToStringDecimal(n: nat)
    ensures |NatToString(n)| >= 1 && AllDigits(NatToString(n))
    ensures DecimalValue(NatToString(n)) == n
    decreases n
  {
    var s := NatToString(n);
    if n >= 10 {
      var init := NatToString(n / 10);
      NatToStringDecimal(n / 10);
      assert s == init + [DigitChar(n % 10)];
      assert s[..|s| - 1] == init;
    }
  }

  /** Joining the pieces of a split with the same separator gives the string back. */
  lemma {:induction false} JoinSplit(s: string, sep: char)
    ensures Join(Split(s, sep), [sep]) == s
    decreases |s|
  {
    if s != [] {
      var rest := Split(s[1..], sep);
      JoinSplit(s[1..], sep);
      if s[0] == sep {
        assert Split(s, sep) == [""] + rest;
        assert Join([""] + rest, [sep]) == "" + [sep] + Join(rest, [sep]);
      } else {
        JoinGlued([s[0]], rest, [sep]);
        assert s == [s[0]] + s[1..];
      }
    }
  }

  /** Gluing `x` onto the first piece puts it in front of the joined text. */
  lemma JoinGlued(x: string, rest: seq<string>, sep: string)
    requires rest != []
    ensures Join([x + rest[0]] + rest[1..], sep) == x + Join(rest, sep)
  {
    var parts := [x + rest[0]] + rest[1..];
    assert parts[0] == x + rest[0] && parts[1..] == rest[1..];
    if |rest| > 1 {
      assert Join(parts, sep) == x + rest[0] + sep + Join(rest[1..], sep);
    }
  }

  /** A prefix free of separators glues onto the first piece of what follows it. */
  lemma {:induction false} SplitPrefix(a: string, t: string, sep: char)
    requires sep !in a
    ensures Split(a + t, sep) == [a + Split(t, sep)[0]] + Split(t, sep)[1..]
    decreases |a|
  {
    if a == [] {
      var st := Split(t, sep);
      assert a + t == t;
      assert a + st[0] == st[0];
      assert st == [st[0]] + st[1..];
    } else {
      var a' := a[1..];
      SplitPrefix(a', t, sep);
      var st := Split(t, sep);
      assert (a + t)[0] == a[0];
      assert (a + t)[1..] == a' + t;
      var rest := Split(a' + t, sep);
      assert rest == [a' + st[0]] + st[1..];
      assert Split(a + t, sep) == [[a[0]] + rest[0]] + rest[1..];
      assert [a[0]] + (a' + st[0]) == a + st[0];
    }
  }

  /** Splitting a join of separator-free pieces gives the pieces back. */
  lemma {:induction false} SplitJoin(parts: seq<string>, sep: char)
    requires |parts| >= 1
    requires forall i :: 0 <= i < |parts| ==> sep !in parts[i]
    ensures Split(Join(parts, [sep]), sep) == parts
    decreases |parts|
  {
    if |parts| == 1 {
      SplitPrefix(parts[0], "", sep);
      assert parts[0] + "" == parts[0];
    } else {
      var tail := Join(parts[1..], [sep]);
      SplitJoin(parts[1..], sep);
      assert Join(parts, [sep]) == parts[0] + ([sep] + tail);
      SplitPrefix(parts[0], [sep] + tail, sep);
      assert ([sep] + tail)[1..] == tail;
      assert Split([sep] + tail, sep) == [""] + parts[1..];
      assert parts[0] + "" == parts[0];
    }
  }

  /** Joining one more piece adds a separator and the piece at the end. */
  lemma {:induction false} JoinSnoc(parts: seq<string>, x: string, sep: string)
    requires parts != []
    ensures Join(parts + [x], sep) == Join(parts, sep) + sep + x
    decreases |parts|
  {
    if |parts| == 1 {
      assert parts + [x] == [parts[0], x];
      assert [parts[0], x][1..] == [x];
    } else {
      assert (parts + [x])[1..] == parts[1..] + [x];
      JoinSnoc(parts[1..], x, sep);
    }
  }
}
