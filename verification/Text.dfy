// String primitives: Go's strings.Split on one separator, its inverse, and decimal printing.
module Text {

  function Split(s: string, sep: char): (parts: seq<string>)
    ensures |parts| >= 1
  {
    if s == [] then [""]
    else
      var rest := Split(s[1..], sep);
      if s[0] == sep then [""] + rest else [[s[0]] + rest[0]] + rest[1..]
  }

  function Join(parts: seq<string>, sep: char): string {
    if |parts| == 0 then ""
    else if |parts| == 1 then parts[0]
    else parts[0] + [sep] + Join(parts[1..], sep)
  }

  // No field contains the separator.
  ghost predicate Fields(parts: seq<string>, sep: char) {
    forall i :: 0 <= i < |parts| ==> sep !in parts[i]
  }

  lemma {:induction false} SplitFields(s: string, sep: char)
    ensures Fields(Split(s, sep), sep)
  {
    if s != [] {
      SplitFields(s[1..], sep);
    }
  }

  lemma {:induction false} JoinSplit(s: string, sep: char)
    ensures Join(Split(s, sep), sep) == s
  {
    if s == [] {
    } else {
      JoinSplit(s[1..], sep);
      var rest := Split(s[1..], sep);
      var all := Split(s, sep);
      if s[0] == sep {
        assert all[1..] == rest;
        assert s == [sep] + s[1..];
      } else {
        assert all[1..] == rest[1..];
        assert s == [s[0]] + s[1..];
        if |rest| > 1 {
          assert ([s[0]] + rest[0]) + [sep] + Join(rest[1..], sep)
              == [s[0]] + (rest[0] + [sep] + Join(rest[1..], sep));
        }
      }
    }
  }

  lemma {:induction false} SplitAtFirst(a: string, s: string, sep: char)
    requires sep !in a
    ensures Split(a, sep) == [a]
    ensures Split(a + [sep] + s, sep) == [a] + Split(s, sep)
  {
    if a == [] {
      assert a + [sep] + s == [sep] + s;
      assert ([sep] + s)[1..] == s;
    } else {
      SplitAtFirst(a[1..], s, sep);
      assert (a + [sep] + s)[1..] == a[1..] + [sep] + s;
      assert a == [a[0]] + a[1..];
    }
  }

  lemma {:induction false} SplitJoin(parts: seq<string>, sep: char)
    requires |parts| >= 1 && Fields(parts, sep)
    ensures Split(Join(parts, sep), sep) == parts
  {
    SplitAtFirst(parts[0], Join(parts[1..], sep), sep);
    if |parts| == 1 {
      assert parts == [parts[0]];
    } else {
      SplitJoin(parts[1..], sep);
      assert parts == [parts[0]] + parts[1..];
    }
  }

  // What one more character does to the fields read so far.
  function Extend(parts: seq<string>, c: char, sep: char): seq<string>
    requires |parts| >= 1
  {
    var last := |parts| - 1;
    if c == sep then parts + [""] else parts[..last] + [parts[last] + [c]]
  }

  lemma ExtendUnderPrefix(x: char, rest: seq<string>, c: char, sep: char)
    requires |rest| >= 1
    ensures Extend([""] + rest, c, sep) == [""] + Extend(rest, c, sep)
    ensures var grafted := Extend(rest, c, sep);
            Extend([[x] + rest[0]] + rest[1..], c, sep) == [[x] + grafted[0]] + grafted[1..]
  {
    if |rest| == 1 {
      assert ([x] + rest[0]) + [c] == [x] + (rest[0] + [c]);
    }
  }

  lemma {:induction false} SplitSnoc(s: string, c: char, sep: char)
    ensures Split(s + [c], sep) == Extend(Split(s, sep), c, sep)
  {
    if s == [] {
      assert [] + [c] == [c] && [c][1..] == [];
      assert "" + [c] == [c] + "";
    } else {
      SplitSnoc(s[1..], c, sep);
      assert (s + [c])[1..] == s[1..] + [c] && (s + [c])[0] == s[0];
      ExtendUnderPrefix(s[0], Split(s[1..], sep), c, sep);
    }
  }

  // fmt.Sprintf("%d", n) for n >= 0.
  function Decimal(n: nat): (s: string)
    ensures s != ""
    ensures forall i :: 0 <= i < |s| ==> '0' <= s[i] <= '9'
  {
    var digit := [('0' as int + n % 10) as char];
    if n < 10 then digit else Decimal(n / 10) + digit
  }

  lemma {:induction false} DecimalInjective(m: nat, n: nat)
    requires Decimal(m) == Decimal(n)
    ensures m == n
  {
    var a, b := Decimal(m), Decimal(n);
    assert a[|a| - 1] == ('0' as int + m % 10) as char;
    assert b[|b| - 1] == ('0' as int + n % 10) as char;
    assert m % 10 == n % 10;
    assert m < 10 <==> |a| == 1;
    assert n < 10 <==> |b| == 1;
    if m >= 10 {
      assert a[..|a| - 1] == Decimal(m / 10);
      assert b[..|b| - 1] == Decimal(n / 10);
      DecimalInjective(m / 10, n / 10);
    }
  }
}
