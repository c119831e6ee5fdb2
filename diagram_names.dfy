/** The node names of generar_diagrama. The program keys its graph and its layout by
    the strings "Inversor i", "Inversor i - Carril c" and "Inversor i - Carril c - Panel p"
    (lines 107, 118 and 132). The graph model keys them by NodeId instead; this module
    shows that nothing is lost: the naming is injective, because every name parses back
    to the node it was made from. */
module DiagramNames {
  import opened Wrappers
  import opened Topology

  predicate IsDigit(ch: char)
  {
    '0' <= ch <= '9'
  }

  predicate AllDigits(s: string)
  {
    forall k | 0 <= k < |s| :: IsDigit(s[k])
  }

  function DigitChar(d: nat): (ch: char)
    requires d < 10
    ensures IsDigit(ch) && ch as int - '0' as int == d
  {
    (d + '0' as int) as char
  }

  /** Python's str() of a non-negative integer: decimal digits, no leading zeros. */
  function Decimal(n: nat): (s: string)
    ensures |s| >= 1 && AllDigits(s)
    ensures |s| > 1 ==> s[0] != '0'
    decreases n
  {
    if n < 10 then [DigitChar(n)] else Decimal(n / 10) + [DigitChar(n % 10)]
  }

  /** The value of a string of decimal digits, most significant first. */
  function DigitsValue(s: string): nat
    requires AllDigits(s)
  {
    if |s| == 0 then 0
    else DigitsValue(s[..|s| - 1]) * 10 + (s[|s| - 1] as int - '0' as int)
  }

  /** The length of the run of digits that starts the string. */
  function DigitSpan(s: string): (k: nat)
    ensures k <= |s| && AllDigits(s[..k])
    ensures k < |s| ==> !IsDigit(s[k])
  {
    if |s| == 0 || !IsDigit(s[0]) then 0
    else
      var k := 1 + DigitSpan(s[1..]);
      assert s[..k] == [s[0]] + s[1..][..k - 1];
      k
  }

  /** Reads the number at the head of a string, as str() writes numbers: its value and
      what follows it. A run of digits with a leading zero is not such a number. */
  function ReadNumber(s: string): Option<(nat, string)>
  {
    var k := DigitSpan(s);
    if k == 0 || (k > 1 && s[0] == '0') then None else Some((DigitsValue(s[..k]), s[k..]))
  }

  /** Lines 107, 118 and 132: the name the program gives each node, "Inversor i",
      "Inversor i - Carril c" or "Inversor i - Carril c - Panel p". */
  function Name(n: NodeId): (s: string)
    ensures |s| > 9 && s[..9] == "Inversor "
    ensures n.Inverter? <==> AllDigits(s[9..])
  {
    var digits := Decimal(n.inv);
    var name := "Inversor " + (digits + CarrilTail(n));
    assert name[9..] == digits + CarrilTail(n);
    assert !n.Inverter? ==> name[9..][|digits|] == ' ';
    name
  }

  /** What follows the inverter number: nothing, or " - Carril c" and what follows it. */
  function CarrilTail(n: NodeId): string
  {
    if n.Inverter? then [] else " - Carril " + (Decimal(n.carril) + PanelTail(n))
  }

  /** What follows the string number: nothing, or " - Panel p". */
  function PanelTail(n: NodeId): string
  {
    if n.Panel? then " - Panel " + Decimal(n.panel) else []
  }

  /** The rest of s after a fixed prefix, or None when s does not start with it. */
  function DropPrefix(prefix: string, s: string): Option<string>
  {
    if |s| >= |prefix| && s[..|prefix|] == prefix then Some(s[|prefix|..]) else None
  }

  /** Reads a node name back; None for any string that is not one. */
  function ParseName(s: string): Option<NodeId>
  {
    match DropPrefix("Inversor ", s)
    case None => None
    case Some(t) =>
      match ReadNumber(t)
      case None => None
      case Some((i, rest)) => ParseAfterInverter(i, rest)
  }

  function ParseAfterInverter(i: nat, s: string): Option<NodeId>
  {
    if s == [] then Some(Inverter(i))
    else
      match DropPrefix(" - Carril ", s)
      case None => None
      case Some(t) =>
        match ReadNumber(t)
        case None => None
        case Some((c, rest)) => ParseAfterCarril(i, c, rest)
  }

  function ParseAfterCarril(i: nat, c: nat, s: string): Option<NodeId>
  {
    if s == [] then Some(Carril(i, c))
    else
      match DropPrefix(" - Panel ", s)
      case None => None
      case Some(t) =>
        match ReadNumber(t)
        case None => None
        case Some((p, rest)) => if rest == [] then Some(Panel(i, c, p)) else None
  }

  /** Appending one digit multiplies the value by ten and adds the digit. */
  lemma {:induction false} DigitsValueSnoc(s: string, ch: char)
    requires AllDigits(s) && IsDigit(ch)
    ensures AllDigits(s + [ch])
    ensures DigitsValue(s + [ch]) == DigitsValue(s) * 10 + (ch as int - '0' as int)
  {
    assert (s + [ch])[..|s|] == s;
  }

  /** Reading the digits of Decimal(n) gives back n. */
  lemma {:induction false} DecimalValue(n: nat)
    ensures DigitsValue(Decimal(n)) == n
    decreases n
  {
    if n >= 10 {
      DecimalValue(n / 10);
      assert DigitsValue(Decimal(n / 10) + [DigitChar(n % 10)]) == DigitsValue(Decimal(n / 10)) * 10 + n % 10 by {
        DigitsValueSnoc(Decimal(n / 10), DigitChar(n % 10));
      }
    }
  }

  /** A run of digits followed by a non-digit (or nothing) is read whole. */
  lemma {:induction false} DigitSpanOf(digits: string, rest: string)
    requires AllDigits(digits)
    requires rest == [] || !IsDigit(rest[0])
    ensures DigitSpan(digits + rest) == |digits|
    decreases |digits|
  {
    if |digits| > 0 {
      assert (digits + rest)[1..] == digits[1..] + rest;
      DigitSpanOf(digits[1..], rest);
    } else {
      assert digits + rest == rest;
    }
  }

  /** The number at the head of Decimal(n) + rest is n, and rest follows it. */
  lemma {:induction false} ReadDecimal(n: nat, rest: string)
    requires rest == [] || !IsDigit(rest[0])
    ensures ReadNumber(Decimal(n) + rest) == Some((n, rest))
  {
    var d := Decimal(n);
    DigitSpanOf(d, rest);
    assert (d + rest)[..|d|] == d;
    assert (d + rest)[|d|..] == rest;
    DecimalValue(n);
  }

  /** A string that reads as a number starts with that number's decimal form. */
  lemma {:induction false} NameOfRead(s: string, n: nat)
    requires ReadNumber(s).Some? && ReadNumber(s).value.0 == n
    ensures s == Decimal(n) + ReadNumber(s).value.1
  {
    var k := DigitSpan(s);
    var d := s[..k];
    assert d[0] == s[0];
    DigitsDecimal(d);
    assert s == d + s[k..];
  }

  /** A run of digits with no leading zero is the decimal form of its value. */
  lemma {:induction false} DigitsDecimal(s: string)
    requires |s| >= 1 && AllDigits(s) && (|s| == 1 || s[0] != '0')
    ensures s == Decimal(DigitsValue(s))
    decreases |s|
  {
    var front := s[..|s| - 1];
    var last := s[|s| - 1];
    var d := last as int - '0' as int;
    assert s == front + [last];
    assert AllDigits(front);
    if |s| == 1 {
      assert front == [];
      assert DigitsValue(s) == d;
      assert DigitChar(d) == last;
    } else {
      assert front[0] == s[0];
      DigitsDecimal(front);
      DigitsValueSnoc(front, last);
      var v := DigitsValue(front);
      PositiveLeading(front);
      assert DigitsValue(s) == v * 10 + d;
      assert (v * 10 + d) / 10 == v && (v * 10 + d) % 10 == d;
      assert DigitChar(d) == last;
    }
  }

  /** A run of digits whose first digit is not zero has a value of at least ten to the
      power of its length less one; here: at least 1, and at least 10 from two digits. */
  lemma {:induction false} PositiveLeading(s: string)
    requires |s| >= 1 && AllDigits(s) && s[0] != '0'
    ensures DigitsValue(s) >= 1
    ensures |s| >= 2 ==> DigitsValue(s) >= 10
    decreases |s|
  {
    if |s| > 1 {
      var front := s[..|s| - 1];
      assert AllDigits(front) && front[0] == s[0];
      PositiveLeading(front);
    }
  }

  lemma {:induction false} DropPrefixOf(prefix: string, rest: string)
    ensures DropPrefix(prefix, prefix + rest) == Some(rest)
  {
    assert (prefix + rest)[..|prefix|] == prefix;
    assert (prefix + rest)[|prefix|..] == rest;
  }

  lemma {:induction false} DropPrefixSome(prefix: string, s: string)
    requires DropPrefix(prefix, s).Some?
    ensures s == prefix + DropPrefix(prefix, s).value
  {
    assert s == s[..|prefix|] + s[|prefix|..];
  }

  lemma {:induction false} AfterCarrilComplete(n: NodeId)
    requires !n.Inverter?
    ensures ParseAfterCarril(n.inv, n.carril, PanelTail(n)) == Some(n)
  {
    if n.Panel? {
      DropPrefixOf(" - Panel ", Decimal(n.panel));
      assert Decimal(n.panel) == Decimal(n.panel) + [];
      ReadDecimal(n.panel, []);
    }
  }

  lemma {:induction false} AfterInverterComplete(n: NodeId)
    ensures ParseAfterInverter(n.inv, CarrilTail(n)) == Some(n)
  {
    if !n.Inverter? {
      DropPrefixOf(" - Carril ", Decimal(n.carril) + PanelTail(n));
      ReadDecimal(n.carril, PanelTail(n));
      AfterCarrilComplete(n);
    }
  }

  /** Every node name parses back to its node. */
  lemma {:induction false} ParseNameRoundTrip(n: NodeId)
    ensures ParseName(Name(n)) == Some(n)
  {
    DropPrefixOf("Inversor ", Decimal(n.inv) + CarrilTail(n));
    ReadDecimal(n.inv, CarrilTail(n));
    AfterInverterComplete(n);
  }

  lemma {:induction false} AfterCarrilSound(i: nat, c: nat, s: string, n: NodeId)
    requires ParseAfterCarril(i, c, s) == Some(n)
    ensures !n.Inverter? && n.inv == i && n.carril == c && s == PanelTail(n)
  {
    if s != [] {
      var t := DropPrefix(" - Panel ", s).value;
      DropPrefixSome(" - Panel ", s);
      NameOfRead(t, n.panel);
    }
  }

  lemma {:induction false} AfterInverterSound(i: nat, s: string, n: NodeId)
    requires ParseAfterInverter(i, s) == Some(n)
    ensures n.inv == i && s == CarrilTail(n)
  {
    if s != [] {
      var t := DropPrefix(" - Carril ", s).value;
      DropPrefixSome(" - Carril ", s);
      var (c, rest) := ReadNumber(t).value;
      NameOfRead(t, c);
      AfterCarrilSound(i, c, rest, n);
    }
  }

  /** Only node names parse: whatever ParseName accepts is the name of what it returns. */
  lemma {:induction false} ParseNameSound(s: string, n: NodeId)
    requires ParseName(s) == Some(n)
    ensures Name(n) == s
  {
    var t := DropPrefix("Inversor ", s).value;
    DropPrefixSome("Inversor ", s);
    var (i, rest) := ReadNumber(t).value;
    NameOfRead(t, i);
    AfterInverterSound(i, rest, n);
  }

  /** ParseName is the exact inverse of Name. */
  lemma {:induction false} ParseNameInverse(s: string, n: NodeId)
    ensures ParseName(s) == Some(n) <==> s == Name(n)
  {
    if ParseName(s) == Some(n) {
      ParseNameSound(s, n);
    }
    if s == Name(n) {
      ParseNameRoundTrip(n);
    }
  }

  /** Distinct nodes get distinct names, so keying the graph by NodeId instead of by
      name merges no nodes and splits none. */
  lemma {:induction false} NamesDistinct(a: NodeId, b: NodeId)
    requires a != b
    ensures Name(a) != Name(b)
  {
    ParseNameRoundTrip(a);
    ParseNameRoundTrip(b);
  }
}
