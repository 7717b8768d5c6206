/**
 Names of dynamically started children: the template's name, a `#`, and a counter in
 decimal (concurrency/src/dynamic_supervisor/mod.rs:31-34). The counter can be read back
 from the text after the last `#`, so two starts never produce the same name.
 */
module InstanceIds {

  const DIGITS: string := "0123456789"

  function Decimal(n: nat): (s: string)
    ensures |s| >= 1
  {
    if n < 10 then [DIGITS[n]] else Decimal(n / 10) + [DIGITS[n % 10]]
  }

  function InstanceId(template: string, counter: nat): string {
    template + "#" + Decimal(counter)
  }

  function AfterLastHash(s: string): string {
    if s == [] || s[|s| - 1] == '#' then [] else AfterLastHash(s[..|s| - 1]) + [s[|s| - 1]]
  }

  function DigitValue(c: char): nat {
    if '0' <= c <= '9' then c as nat - '0' as nat else 0
  }

  function Value(s: string): nat {
    if s == [] then 0 else 10 * Value(s[..|s| - 1]) + DigitValue(s[|s| - 1])
  }

  /** The counter a name carries. */
  function CounterOf(id: string): nat {
    Value(AfterLastHash(id))
  }

  lemma {:induction false} DecimalRoundTrip(n: nat)
    ensures Value(Decimal(n)) == n
    ensures forall i :: 0 <= i < |Decimal(n)| ==> Decimal(n)[i] != '#'
  {
    if n >= 10 {
      DecimalRoundTrip(n / 10);
      var front := Decimal(n / 10);
      assert Decimal(n)[..|front|] == front;
      DigitRoundTrip(n % 10);
    } else {
      DigitRoundTrip(n);
      assert Decimal(n)[..0] == [];
    }
  }

  lemma DigitRoundTrip(d: nat)
    requires d < 10
    ensures DigitValue(DIGITS[d]) == d && DIGITS[d] != '#'
  {
    assert DIGITS[0] == '0' && DIGITS[1] == '1' && DIGITS[2] == '2' && DIGITS[3] == '3' && DIGITS[4] == '4';
    assert DIGITS[5] == '5' && DIGITS[6] == '6' && DIGITS[7] == '7' && DIGITS[8] == '8' && DIGITS[9] == '9';
  }

  lemma {:induction false} HashThenText(prefix: string, text: string)
    requires forall i :: 0 <= i < |text| ==> text[i] != '#'
    ensures AfterLastHash(prefix + "#" + text) == text
  {
    var s := prefix + "#" + text;
    if text != [] {
      var shorter := text[..|text| - 1];
      assert s[..|s| - 1] == prefix + "#" + shorter;
      HashThenText(prefix, shorter);
    }
  }

  lemma CounterRecovered(template: string, counter: nat)
    ensures CounterOf(InstanceId(template, counter)) == counter
  {
    DecimalRoundTrip(counter);
    HashThenText(template, Decimal(counter));
  }

  /** Both parts of a name can be told apart, even when the template itself contains a `#`. */
  lemma InstanceIdInjective(t: string, c: nat, t': string, c': nat)
    requires InstanceId(t, c) == InstanceId(t', c')
    ensures t == t' && c == c'
  {
    CounterRecovered(t, c);
    CounterRecovered(t', c');
    var id := InstanceId(t, c);
    var n := |id| - |Decimal(c)| - 1;
    assert t == id[..n];
    assert t' == id[..n];
  }
}
