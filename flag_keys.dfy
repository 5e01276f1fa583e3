// Keys of the browser's key/value flag store. A key is the plain
// concatenation "<kind>-<employee>-<date>-<slot>".

module FlagKeys {
  import opened Slots

  /** `submitted` flags guard manual submission, `absent` flags guard the
      auto-absent backstop. */
  datatype Kind = Submitted | AbsentMark

  function KindName(k: Kind): string {
    match k
    case Submitted => "submitted"
    case AbsentMark => "absent"
  }

  /** Two parts joined by a dash. */
  function Join(a: string, r: string): string {
    a + "-" + r
  }

  /** The key "<kind>-<emp>-<date>-<slot>". */
  function FlagKey(kind: Kind, emp: string, date: string, slot: Slot): string {
    Join(KindName(kind), Join(emp, Join(date, SlotName(slot))))
  }

  predicate NoDash(s: string) {
    '-' !in s
  }

  /** Text before a dash that is itself dash-free is determined by the whole. */
  lemma {:induction false} SplitAtDash(a: string, r: string, a': string, r': string)
    requires NoDash(a) && NoDash(a')
    requires Join(a, r) == Join(a', r')
    ensures a == a' && r == r'
  {
    var w := Join(a, r);
    assert w[|a|] == '-';
    assert w[|a'|] == '-';
    assert |a| == |a'|;
    assert a == w[..|a|] == a';
    assert r == w[|a| + 1..] == r';
  }

  /** Text after a dash that is itself dash-free is determined by the whole. */
  lemma {:induction false} SplitAtLastDash(a: string, r: string, a': string, r': string)
    requires NoDash(r) && NoDash(r')
    requires Join(a, r) == Join(a', r')
    ensures a == a' && r == r'
  {
    var w := Join(a, r);
    assert w[|a|] == '-' && w[|a'|] == '-';
    assert |a| == |a'|;
    assert a == w[..|a|] == a';
    assert r == w[|a| + 1..] == r';
  }

  /** The employee, date and slot parts are split off from the right: only
      the last two parts need to be dash-free. */
  lemma {:induction false} SplitTail(e: string, d: string, x: string, e': string, d': string, x': string)
    requires NoDash(d) && NoDash(x) && NoDash(d') && NoDash(x')
    requires Join(e, Join(d, x)) == Join(e', Join(d', x'))
    ensures e == e' && d == d' && x == x'
  {
    assert Join(e, Join(d, x)) == Join(Join(e, d), x);
    assert Join(e', Join(d', x')) == Join(Join(e', d'), x');
    SplitAtLastDash(Join(e, d), x, Join(e', d'), x');
    SplitAtLastDash(e, d, e', d');
  }

  /** When the date contains no dash, the key determines its kind, employee,
      date and slot, whatever the employee identifier. */
  lemma FlagKeyInjective(k: Kind, e: string, d: string, s: Slot, k': Kind, e': string, d': string, s': Slot)
    requires NoDash(d) && NoDash(d')
    requires FlagKey(k, e, d, s) == FlagKey(k', e', d', s')
    ensures k == k' && e == e' && d == d' && s == s'
  {
    var n, n' := KindName(k), KindName(k');
    var x, x' := SlotName(s), SlotName(s');
    assert NoDash(n) && NoDash(n') && NoDash(x) && NoDash(x');
    SplitAtDash(n, Join(e, Join(d, x)), n', Join(e', Join(d', x')));
    SplitTail(e, d, x, e', d', x');
  }

  /** Keys of different kinds never coincide, whatever the identifiers:
      the two families of flags are disjoint. */
  lemma KindsNeverCollide(e: string, d: string, s: Slot, e': string, d': string, s': Slot)
    ensures FlagKey(Submitted, e, d, s) != FlagKey(AbsentMark, e', d', s')
  {
    assert FlagKey(Submitted, e, d, s)[0] == 's';
    assert FlagKey(AbsentMark, e', d', s')[0] == 'a';
  }

  /** With a dash inside a date, two different employee/date pairs can share
      one key. */
  lemma FlagKeyCollision()
    ensures FlagKey(Submitted, "E-1", "17/10/2026", Morning) == FlagKey(Submitted, "E", "1-17/10/2026", Morning)
  {
  }
}
