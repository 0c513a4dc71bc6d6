/** Composite text keys of the form "<head>:<tail>", and decimal integers.

    The alert engine, the alert store and the service graph all file state under
    such keys, so each of them relies on the key giving its parts back. */
module Keys {
  import opened Wrappers

  function Join(head: string, tail: string): string {
    head + ":" + tail
  }

  /** Splits at the first colon, as a two-way split on ":" does. */
  function Split(key: string): (parts: Option<(string, string)>)
    ensures parts.None? <==> ':' !in key
    ensures parts.Some? ==> ':' !in parts.value.0 && Join(parts.value.0, parts.value.1) == key
  {
    if key == "" then None
    else if key[0] == ':' then Some(("", key[1..]))
    else
      match Split(key[1..])
      case None => None
      case Some((head, tail)) => Some(([key[0]] + head, tail))
  }

  lemma {:induction false} SplitJoin(head: string, tail: string)
    requires ':' !in head
    ensures Split(Join(head, tail)) == Some((head, tail))
  {
    if head == "" {
      assert Join(head, tail)[1..] == tail;
    } else {
      SplitJoin(head[1..], tail);
      assert Join(head, tail)[1..] == Join(head[1..], tail);
      assert [head[0]] + head[1..] == head;
    }
  }

  // ----- decimal integers

  function Digits(n: nat): (text: string)
    ensures text != "" && (|text| > 1 <==> n >= 10)
    ensures forall c :: c in text ==> '0' <= c <= '9'
  {
    var last := [(('0' as int) + n % 10) as char];
    if n < 10 then last else Digits(n / 10) + last
  }

  /** The integer as the "%d" verb prints it. */
  function Decimal(n: int): (text: string)
    ensures ':' !in text
  {
    if n < 0 then "-" + Digits(-n) else Digits(n)
  }

  lemma {:induction false} DigitsInjective(m: nat, n: nat)
    requires Digits(m) == Digits(n)
    ensures m == n
  {
    var a, b := Digits(m), Digits(n);
    assert a[|a| - 1] == (('0' as int) + m % 10) as char;
    assert b[|b| - 1] == (('0' as int) + n % 10) as char;
    assert m % 10 == n % 10;
    if m >= 10 && n >= 10 {
      assert Digits(m / 10) == a[..|a| - 1] && Digits(n / 10) == b[..|b| - 1];
      DigitsInjective(m / 10, n / 10);
    }
  }

  lemma MinusMarksNegative(n: int)
    ensures Decimal(n) != "" && (Decimal(n)[0] == '-' <==> n < 0)
  {
    if n >= 0 {
      assert Decimal(n)[0] in Digits(n);
    }
  }

  lemma DecimalInjective(m: int, n: int)
    requires Decimal(m) == Decimal(n)
    ensures m == n
  {
    MinusMarksNegative(m);
    MinusMarksNegative(n);
    if m < 0 {
      assert Digits(-m) == Decimal(m)[1..] && Digits(-n) == Decimal(n)[1..];
      DigitsInjective(-m, -n);
    } else {
      DigitsInjective(m, n);
    }
  }

  /** "<number>:<text>" determines both parts, colons in the text included. */
  lemma NumberedKeyInjective(m: int, s: string, n: int, t: string)
    ensures Join(Decimal(m), s) == Join(Decimal(n), t) <==> m == n && s == t
  {
    SplitJoin(Decimal(m), s);
    SplitJoin(Decimal(n), t);
    if Join(Decimal(m), s) == Join(Decimal(n), t) {
      DecimalInjective(m, n);
    }
  }
}
