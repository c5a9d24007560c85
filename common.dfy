/**
 * Shared vocabulary of the approval core: optional values, typed results,
 * readings of the wall clock, the typed errors that replace the engines'
 * exception messages, and a few facts about sequences used as lists.
 */
module Common {

  datatype Option<T> = None | Some(value: T) {
    /** Python's `d.get(key, default)`. */
    function GetOr(default: T): T {
      match this
      case Some(v) => v
      case None => default
    }
  }

  /** Status of a human-approval gate: pending is initial, the other two are terminal. */
  datatype GateStatus = Pending | Approved | Rejected

  /** The failures raised by the engines, carried as values instead of message strings. */
  datatype Error =
    | NotFound
    | NotPending(status: GateStatus)
    | Unauthorized(actor: string)
    | ValidationFailed
    | PendingApproval(gateId: string)
    | GateCreated(gateId: string)
    | ApprovalRejected(gateId: string)

  datatype Result<T> = Success(value: T) | Failure(error: Error)

  /**
   * One reading of the wall clock: whole seconds on the UTC time line, and the
   * same instant as ISO-8601 text ending in "Z".
   */
  datatype Clock = Clock(seconds: nat, iso: string)

  /** The elements of a list, as Python's `set(list)`. */
  function SetOf<T>(s: seq<T>): set<T> {
    set x | x in s
  }

  /** No element occurs twice. */
  predicate NoDup<T(==)>(s: seq<T>) {
    forall i, j :: 0 <= i < j < |s| ==> s[i] != s[j]
  }

  /** Python's `list.index(x)`: the position of the first occurrence of `x`. */
  function IndexOf<T(==)>(s: seq<T>, x: T): (i: nat)
    requires x in s
    ensures i < |s| && s[i] == x && x !in s[..i]
  {
    if s[0] == x then 0
    else
      var k := IndexOf(s[1..], x);
      assert s[..k + 1] == [s[0]] + s[1..][..k];
      k + 1
  }

  /** Cutting position `i` out of `s` shifts every later element down by one. */
  lemma RemoveAt<T>(s: seq<T>, i: nat)
    requires i < |s|
    ensures |s[..i] + s[i + 1..]| == |s| - 1
    ensures forall k :: 0 <= k < i ==> (s[..i] + s[i + 1..])[k] == s[k]
    ensures forall k {:trigger (s[..i] + s[i + 1..])[k]} :: i <= k < |s| - 1 ==> (s[..i] + s[i + 1..])[k] == s[k + 1]
  {
  }

  /** Python's `list.remove(x)`: drops the first occurrence of `x`, if there is one. */
  function RemoveFirst<T(==)>(s: seq<T>, x: T): (r: seq<T>)
    ensures x !in s ==> r == s
    ensures x in s ==> r == s[..IndexOf(s, x)] + s[IndexOf(s, x) + 1..]
    ensures x in s ==> |r| == |s| - 1
    ensures forall y :: y in r ==> y in s
    ensures forall y :: y in s && y != x ==> y in r
  {
    if x in s then
      var i := IndexOf(s, x);
      RemoveAt(s, i);
      assert forall y :: y in s && y != x ==> y in s[..i] + s[i + 1..] by {
        forall y | y in s && y != x ensures y in s[..i] + s[i + 1..] {
          var j :| 0 <= j < |s| && s[j] == y;
          if j < i {
            assert (s[..i] + s[i + 1..])[j] == y;
          } else {
            assert (s[..i] + s[i + 1..])[j - 1] == y;
          }
        }
      }
      s[..i] + s[i + 1..]
    else s
  }

  /** On a list without duplicates, `remove` takes the element out entirely and keeps the list duplicate-free. */
  lemma RemoveFirstNoDup<T>(s: seq<T>, x: T)
    requires NoDup(s)
    ensures x !in RemoveFirst(s, x)
    ensures NoDup(RemoveFirst(s, x))
    ensures SetOf(RemoveFirst(s, x)) == SetOf(s) - {x}
  {
    if x in s {
      var i := IndexOf(s, x);
      var r := RemoveFirst(s, x);
      RemoveAt(s, i);
      forall k | 0 <= k < |r| ensures r[k] != x && r[k] == s[if k < i then k else k + 1] {
      }
      forall a, b | 0 <= a < b < |r| ensures r[a] != r[b] {
        assert r[a] == s[if a < i then a else a + 1] && r[b] == s[if b < i then b else b + 1];
      }
    }
  }

  /** A list has at least as many positions as distinct elements. */
  lemma {:induction false} SetOfSize<T>(s: seq<T>)
    ensures |SetOf(s)| <= |s|
    ensures NoDup(s) ==> |SetOf(s)| == |s|
  {
    if s != [] {
      SetOfSize(s[1..]);
      assert SetOf(s) == SetOf(s[1..]) + {s[0]};
      if NoDup(s) {
        assert NoDup(s[1..]) by {
          forall i, j | 0 <= i < j < |s[1..]| ensures s[1..][i] != s[1..][j] {
            assert s[1..][i] == s[i + 1] && s[1..][j] == s[j + 1];
          }
        }
        assert s[0] !in SetOf(s[1..]) by {
          forall k | 0 <= k < |s[1..]| ensures s[1..][k] != s[0] {
            assert s[1..][k] == s[k + 1];
          }
        }
      }
    }
  }

  /** A list with a repeated element has fewer distinct elements than entries. */
  lemma SetOfSizeDup<T>(s: seq<T>)
    requires !NoDup(s)
    ensures |SetOf(s)| < |s|
  {
    var i, j :| 0 <= i < j < |s| && s[i] == s[j];
    var t := s[..j] + s[j + 1..];
    assert SetOf(t) == SetOf(s) by {
      forall y | y in SetOf(s) ensures y in SetOf(t) {
        var k :| 0 <= k < |s| && s[k] == y;
        if k < j { assert t[k] == y; }
        else if k == j { assert t[i] == y; }
        else { assert t[k - 1] == y; }
      }
    }
    SetOfSize(t);
  }

  /** A subset at least as large as its superset is the whole superset. */
  lemma {:induction false} SubsetFull<T>(a: set<T>, b: set<T>)
    requires a <= b && |a| >= |b|
    ensures a == b
  {
    if a != b {
      assert exists y :: y in b && y !in a;
      var y :| y in b && y !in a;
      assert a <= b - {y};
      SubsetSize(a, b - {y});
    }
  }

  /** Cardinality is monotone under inclusion. */
  lemma {:induction false} SubsetSize<T>(a: set<T>, b: set<T>)
    requires a <= b
    ensures |a| <= |b|
  {
    if a != {} {
      var y :| y in a;
      SubsetSize(a - {y}, b - {y});
    }
  }

  /** Decimal digits of a natural number, as Python's `str(int)` writes them. */
  function NatToString(n: nat): (r: string)
    ensures |r| >= 1
    ensures forall i :: 0 <= i < |r| ==> '0' <= r[i] <= '9'
    ensures n >= 10 ==> r[0] != '0'
    decreases n
  {
    if n < 10 then [Digit(n)] else NatToString(n / 10) + [Digit(n % 10)]
  }

  /** Distinct numbers are written differently, and equal texts come from equal numbers. */
  lemma {:induction false} NatToStringInjective(a: nat, b: nat)
    ensures NatToString(a) == NatToString(b) <==> a == b
    decreases a
  {
    if a >= 10 && b >= 10 {
      NatToStringInjective(a / 10, b / 10);
      var ra, rb := NatToString(a), NatToString(b);
      assert ra == NatToString(a / 10) + [Digit(a % 10)] && rb == NatToString(b / 10) + [Digit(b % 10)];
      if ra == rb {
        assert ra[..|ra| - 1] == NatToString(a / 10) && rb[..|rb| - 1] == NatToString(b / 10);
        assert Digit(a % 10) == Digit(b % 10);
      }
    } else if a >= 10 || b >= 10 {
      assert |NatToString(a)| != |NatToString(b)|;
    }
  }

  /** The decimal digit character for `d`. */
  function Digit(d: nat): (c: char)
    requires d < 10
    ensures '0' <= c <= '9'
    ensures c as int - '0' as int == d
  {
    ('0' as int + d) as char
  }

  /**
   * The first value, in the order `order` lists the keys, that satisfies `p`;
   * Python's `for v in d.values(): if p(v): return v` over a dict whose
   * insertion order is `order`.
   */
  function FirstMatch<K, V>(order: seq<K>, table: map<K, V>, p: V -> bool): (r: Option<V>)
    requires forall k :: k in order ==> k in table
  {
    if order == [] then None
    else if p(table[order[0]]) then Some(table[order[0]])
    else FirstMatch(order[1..], table, p)
  }

  /**
   * `FirstMatch` finds nothing exactly when no listed value satisfies `p`;
   * what it finds is the value of the earliest listed key that does.
   */
  lemma {:induction false} FirstMatchSpec<K, V>(order: seq<K>, table: map<K, V>, p: V -> bool)
    requires forall k :: k in order ==> k in table
    ensures FirstMatch(order, table, p).None? <==> forall i :: 0 <= i < |order| ==> !p(table[order[i]])
    ensures FirstMatch(order, table, p).Some? ==>
      exists i :: 0 <= i < |order| && table[order[i]] == FirstMatch(order, table, p).value &&
        p(table[order[i]]) && forall j :: 0 <= j < i ==> !p(table[order[j]])
  {
    if order != [] {
      FirstMatchSpec(order[1..], table, p);
      if !p(table[order[0]]) {
        if FirstMatch(order[1..], table, p).Some? {
          var i :| 0 <= i < |order[1..]| && table[order[1..][i]] == FirstMatch(order[1..], table, p).value &&
            p(table[order[1..][i]]) && forall j :: 0 <= j < i ==> !p(table[order[1..][j]]);
          assert table[order[i + 1]] == FirstMatch(order, table, p).value;
          forall j | 0 <= j < i + 1 ensures !p(table[order[j]]) {
            if j > 0 { assert order[j] == order[1..][j - 1]; }
          }
        } else {
          forall i | 0 <= i < |order| ensures !p(table[order[i]]) {
            if i > 0 { assert order[i] == order[1..][i - 1]; }
          }
        }
      }
    }
  }

  /** When exactly one stored value satisfies `p`, `FirstMatch` finds that one, whatever the order. */
  lemma FirstMatchUnique<K, V>(order: seq<K>, table: map<K, V>, p: V -> bool, key: K)
    requires forall k :: k in order ==> k in table
    requires key in order && p(table[key])
    requires forall k :: k in table && p(table[k]) ==> k == key
    ensures FirstMatch(order, table, p) == Some(table[key])
  {
    FirstMatchSpec(order, table, p);
    var n :| 0 <= n < |order| && order[n] == key;
  }
}
