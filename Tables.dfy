/** The record tables: a list shown as a DataFrame sorted newest first,
    each row keeping its list position as label, and the list comprehension
    the delete buttons use to drop one position. */
module Tables {
  import Sequences

  /** `[m for i, m in enumerate(s) if i != idx]`. */
  function RemoveAt<T>(s: seq<T>, idx: int): (r: seq<T>)
    ensures 0 <= idx < |s| ==> r == s[..idx] + s[idx + 1..]
    ensures !(0 <= idx < |s|) ==> r == s
  {
    if s == [] then []
    else
      var rest := RemoveAt(s[1..], idx - 1);
      assert s == [s[0]] + s[1..];
      if idx == 0 then rest else [s[0]] + rest
  }

  /** Removing an index in range drops exactly that one record. */
  lemma {:induction false} RemoveAtDropsOne<T>(s: seq<T>, idx: int)
    requires 0 <= idx < |s|
    ensures multiset(RemoveAt(s, idx)) + multiset{s[idx]} == multiset(s)
  {
    var front, back := s[..idx], s[idx + 1..];
    assert RemoveAt(s, idx) == front + back;
    SplitAround(s, idx);
  }

  lemma SplitAround<T>(s: seq<T>, idx: int)
    requires 0 <= idx < |s|
    ensures multiset(s[..idx]) + multiset{s[idx]} + multiset(s[idx + 1..]) == multiset(s)
  {
    assert s == s[..idx] + [s[idx]] + s[idx + 1..];
  }

  /** `pd.DataFrame(s)`: each record with its row label, its list position. */
  function Enumerate<T>(s: seq<T>): seq<(nat, T)>
  {
    seq(|s|, i requires 0 <= i < |s| => (i, s[i]))
  }

  function NewestFirst<T>(dateOf: T -> int): ((nat, T), (nat, T)) -> bool
  {
    (a: (nat, T), b: (nat, T)) => dateOf(a.1) >= dateOf(b.1)
  }

  lemma NewestFirstIsTotalPreorder<T(!new)>(dateOf: T -> int)
    ensures Sequences.TotalPreorder(NewestFirst(dateOf))
  {
    var le := NewestFirst(dateOf);
    forall a: (nat, T), b: (nat, T) ensures le(a, b) || le(b, a) {
    }
    forall a: (nat, T), b: (nat, T), c: (nat, T) | le(a, b) && le(b, c) ensures le(a, c) {
    }
  }

  /** However the labelled records are rearranged, each row still shows the
      record at its label's position, and no label occurs twice. */
  lemma RearrangedRows<T>(s: seq<T>, rows: seq<(nat, T)>)
    requires multiset(rows) == multiset(Enumerate(s))
    ensures forall row | row in rows :: row.0 < |s| && s[row.0] == row.1
    ensures forall i, j | 0 <= i < j < |rows| :: rows[i].0 != rows[j].0
  {
    var all := Enumerate(s);
    forall row | row in rows ensures row.0 < |s| && s[row.0] == row.1 {
      assert row in multiset(rows);
      assert row in all;
    }
    assert Sequences.Distinct(all) by {
      forall i, j | 0 <= i < j < |all| ensures all[i] != all[j] {
        assert all[i].0 == i && all[j].0 == j;
      }
    }
    Sequences.PermutationKeepsDistinct(all, rows);
    forall i, j | 0 <= i < j < |rows| ensures rows[i].0 != rows[j].0 {
      assert rows[i] in rows && rows[j] in rows;
      assert rows[i] != rows[j];
    }
  }

  /** Cutting a newest-first sequence after `n` rows leaves out nothing
      newer than a row it keeps. */
  lemma CutKeepsNewest<T>(sorted: seq<(nat, T)>, dateOf: T -> int, n: nat, x: (nat, T))
    requires Sequences.SortedBy(sorted, NewestFirst(dateOf))
    requires n <= |sorted| && x in sorted && x !in sorted[..n]
    ensures forall row | row in sorted[..n] :: dateOf(row.1) >= dateOf(x.1)
  {
    var p :| 0 <= p < |sorted| && sorted[p] == x;
    forall k | 0 <= k < n ensures sorted[k] != x {
      assert sorted[..n][k] == sorted[k];
    }
    assert n <= p;
    forall row | row in sorted[..n] ensures dateOf(row.1) >= dateOf(x.1) {
      var q :| 0 <= q < n && sorted[..n][q] == row;
      assert NewestFirst(dateOf)(sorted[q], sorted[p]);
    }
  }

  /** So a record left out by the cut is no newer than any record kept. */
  lemma UnshownNoNewer<T>(s: seq<T>, sorted: seq<(nat, T)>, dateOf: T -> int, n: nat)
    requires Sequences.SortedBy(sorted, NewestFirst(dateOf))
    requires multiset(sorted) == multiset(Enumerate(s)) && n <= |sorted|
    ensures forall i, row | 0 <= i < |s| && (i, s[i]) !in sorted[..n] && row in sorted[..n] :: dateOf(row.1) >= dateOf(s[i])
  {
    var all := Enumerate(s);
    forall i | 0 <= i < |s| && (i, s[i]) !in sorted[..n]
      ensures forall row | row in sorted[..n] :: dateOf(row.1) >= dateOf(s[i])
    {
      assert all[i] == (i, s[i]);
      assert (i, s[i]) in multiset(sorted);
      CutKeepsNewest(sorted, dateOf, n, (i, s[i]));
    }
  }

  /** `df.sort_values('date', ascending=False).head(limit).iterrows()`: the
      rows of a record table, newest first; a row's label is still the
      record's position in the list, which the delete button passes on. */
  function RecentRows<T(!new)>(s: seq<T>, dateOf: T -> int, limit: nat): (rows: seq<(nat, T)>)
    ensures |rows| == if limit <= |s| then limit else |s|
    ensures forall row | row in rows :: row.0 < |s| && s[row.0] == row.1
    ensures forall i, j | 0 <= i < j < |rows| :: dateOf(rows[i].1) >= dateOf(rows[j].1)
    ensures forall i, j | 0 <= i < j < |rows| :: rows[i].0 != rows[j].0
    ensures forall i, row | 0 <= i < |s| && (i, s[i]) !in rows && row in rows :: dateOf(row.1) >= dateOf(s[i])
  {
    NewestFirstIsTotalPreorder(dateOf);
    var sorted := Sequences.Sort<(nat, T)>(Enumerate(s), NewestFirst(dateOf));
    RearrangedRows(s, sorted);
    var n := if limit <= |s| then limit else |s|;
    var rows := sorted[..n];
    assert forall row | row in rows :: row in sorted;
    UnshownNoNewer(s, sorted, dateOf, n);
    rows
  }
}
