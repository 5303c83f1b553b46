/** Values shared by every table: optional columns, opaque column types,
    identifiers, timestamps and the decimal rendering used in reference ids. */
module Common {

  /** A nullable column, or a field a request body may leave out. */
  datatype Option<+T> = None | Some(value: T)

  /** What a storage call that can be rejected by the database yields: the value it
      returns, or `Raised` when the statement fails (a constraint violation) and the
      awaiting handler's `catch` runs. */
  datatype Outcome<+T> = Done(value: T) | Raised

  /** A `decimal(10, 2)` column. No computation looks inside it, so it stays opaque. */
  datatype Decimal = Decimal(text: string)

  /** A `json` column that no computation looks inside (shipping address, specifications). */
  datatype Json = Json(text: string)

  /** A `serial` primary key; the database hands out 1, 2, 3, ... */
  type Id = nat

  /** A point in time, from an injected clock (`new Date()`, `Date.now()`, `defaultNow()`). */
  type Timestamp = nat

  /** The ASCII digit for `d`. */
  function DigitChar(d: nat): (c: char)
    requires d < 10
    ensures '0' <= c <= '9' && c as int == '0' as int + d
  {
    ('0' as int + d) as char
  }

  /** The decimal text of `n`, as a JavaScript template literal renders a non-negative integer. */
  function NatToString(n: nat): (s: string)
    ensures 1 <= |s|
    ensures forall i :: 0 <= i < |s| ==> '0' <= s[i] <= '9'
    ensures n < 10 <==> |s| == 1
  {
    if n < 10 then [DigitChar(n)] else NatToString(n / 10) + [DigitChar(n % 10)]
  }

  /** Different numbers have different decimal texts, so reference ids built from ids are distinct. */
  lemma {:induction false} NatToStringInjective(m: nat, n: nat)
    requires NatToString(m) == NatToString(n)
    ensures m == n
  {
    var s := NatToString(m);
    if m < 10 {
      assert s[0] == DigitChar(m) && NatToString(n)[0] == DigitChar(n);
    } else {
      var init := s[..|s| - 1];
      assert init == NatToString(m / 10) && init == NatToString(n / 10);
      NatToStringInjective(m / 10, n / 10);
      assert DigitChar(m % 10) == s[|s| - 1] == DigitChar(n % 10);
    }
  }
}
