/** The response cache as a set of keys, and the key namespace under which
    a user's cached appointment listings are stored.

    A user's listings live under keys that start with
    `user:<id>:appointments`, where `<id>` is the user's numeric id written
    in decimal, as a template literal renders a number. Evicting that
    prefix is how a booking makes the user's cached listings stale. */
module Cache {

  predicate IsDigit(c: char)
  {
    '0' <= c <= '9'
  }

  /** The character of a single decimal digit. */
  function DigitChar(d: nat): (c: char)
    requires d < 10
    ensures IsDigit(c)
    ensures c as int - '0' as int == d
  {
    (d + '0' as int) as char
  }

  /** The decimal rendering of a natural number, without leading zeros:
      a non-empty string of digits. */
  function Decimal(n: nat): (s: string)
    ensures |s| >= 1
    ensures forall i :: 0 <= i < |s| ==> IsDigit(s[i])
    ensures n < 10 <==> |s| == 1
    ensures |s| == 1 || s[0] != '0'
  {
    if n < 10 then [DigitChar(n)] else Decimal(n / 10) + [DigitChar(n % 10)]
  }

  /** The number a string of digits denotes, most significant digit first. */
  function DigitsValue(s: string): nat
    requires forall i :: 0 <= i < |s| ==> IsDigit(s[i])
  {
    if s == [] then 0
    else
      assert IsDigit(s[|s| - 1]);
      DigitsValue(s[..|s| - 1]) * 10 + (s[|s| - 1] as int - '0' as int)
  }

  /** Reading back the decimal rendering of a number gives the number. */
  lemma {:induction false} DecimalRoundTrip(n: nat)
    ensures DigitsValue(Decimal(n)) == n
  {
    var s := Decimal(n);
    if n >= 10 {
      assert s[..|s| - 1] == Decimal(n / 10);
      DecimalRoundTrip(n / 10);
    }
  }

  /** Different numbers have different decimal renderings. */
  lemma DecimalInjective(m: nat, n: nat)
    requires Decimal(m) == Decimal(n)
    ensures m == n
  {
    DecimalRoundTrip(m);
    DecimalRoundTrip(n);
  }

  /** The key prefix of user `id`'s cached appointment listings. */
  function AppointmentsNamespace(id: nat): (prefix: string)
    ensures |prefix| == |Decimal(id)| + 18
    ensures prefix[..5] == "user:"
    ensures prefix[5..5 + |Decimal(id)|] == Decimal(id)
    ensures prefix[5 + |Decimal(id)|] == ':'
    ensures prefix[6 + |Decimal(id)|..] == "appointments"
  {
    "user:" + Decimal(id) + ":appointments"
  }

  /** No cache key lies in the namespaces of two different users: the
      decimal id ends at the first ':' after `user:`, and decimal ids are
      unique. */
  lemma NamespacesDisjoint(u: nat, v: nat, key: string)
    requires AppointmentsNamespace(u) <= key
    requires AppointmentsNamespace(v) <= key
    ensures u == v
  {
    var pu, pv := AppointmentsNamespace(u), AppointmentsNamespace(v);
    var du, dv := Decimal(u), Decimal(v);
    if |du| != |dv| {
      // the ':' ending one namespace would face a digit of the other
      assert false;
    } else {
      forall i | 0 <= i < |du|
        ensures du[i] == dv[i]
      {
        assert du[i] == pu[5 + i] == key[5 + i] == pv[5 + i] == dv[i];
      }
      assert du == dv;
      DecimalInjective(u, v);
    }
  }

  /** Evicts every key that starts with `prefix` and keeps every other key. */
  function InvalidatePrefix(keys: set<string>, prefix: string): (r: set<string>)
    ensures r <= keys
    ensures forall k :: k in keys && !(prefix <= k) ==> k in r
    ensures forall k :: k in r ==> !(prefix <= k)
  {
    set k | k in keys && !(prefix <= k)
  }

  /** Evicting one user's listings leaves every cached listing of every
      other user in place. */
  lemma InvalidationSparesOtherUsers(keys: set<string>, u: nat, v: nat, key: string)
    requires key in keys
    requires AppointmentsNamespace(v) <= key
    requires u != v
    ensures key in InvalidatePrefix(keys, AppointmentsNamespace(u))
  {
    if AppointmentsNamespace(u) <= key {
      NamespacesDisjoint(u, v, key);
    }
  }
}
