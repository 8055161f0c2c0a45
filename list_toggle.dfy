/**
 * Toggling an entry in a list of strings, as the pages do for expanded menu groups
 * (client/src/components/DashboardLayout.tsx) and selected rows (client/src/pages/Receipts.tsx):
 * `prev.includes(x) ? prev.filter(i => i !== x) : [...prev, x]`.
 */
module ListToggle {
  predicate NoDuplicates(s: seq<string>) {
    forall i, j :: 0 <= i < j < |s| ==> s[i] != s[j]
  }

  /** `items.filter(item => item !== entry)`. */
  function Removed(items: seq<string>, entry: string): (r: seq<string>)
    ensures forall x :: x in r <==> x in items && x != entry
    ensures |r| <= |items|
  {
    if items == [] then []
    else if items[0] == entry then Removed(items[1..], entry)
    else [items[0]] + Removed(items[1..], entry)
  }

  /** Removing distributes over concatenation: the other entries stay, in order, each as often as before. */
  lemma {:induction false} RemovedConcat(a: seq<string>, b: seq<string>, x: string, entry: string)
    ensures Removed(a + b, entry) == Removed(a, entry) + Removed(b, entry)
    ensures Removed([x], entry) == if x != entry then [x] else []
  {
    if a == [] {
      assert a + b == b;
    } else {
      assert (a + b)[1..] == a[1..] + b;
      RemovedConcat(a[1..], b, x, entry);
    }
    assert [x][1..] == [];
  }

  lemma {:induction false} RemovedAbsent(items: seq<string>, entry: string)
    requires entry !in items
    ensures Removed(items, entry) == items
  {
    if items != [] {
      RemovedAbsent(items[1..], entry);
      assert [items[0]] + items[1..] == items;
    }
  }

  lemma {:induction false} RemovedAppended(items: seq<string>, entry: string)
    requires entry !in items
    ensures Removed(items + [entry], entry) == items
  {
    if items == [] {
      assert Removed([entry], entry) == Removed([], entry);
    } else {
      RemovedAppended(items[1..], entry);
      assert (items + [entry])[1..] == items[1..] + [entry];
      assert [items[0]] + items[1..] == items;
    }
  }

  lemma {:induction false} RemovedKeepsNoDuplicates(items: seq<string>, entry: string)
    requires NoDuplicates(items)
    ensures NoDuplicates(Removed(items, entry))
  {
    if items != [] {
      assert NoDuplicates(items[1..]) by {
        forall i, j | 0 <= i < j < |items[1..]| ensures items[1..][i] != items[1..][j] {
          assert items[1..][i] == items[i + 1] && items[1..][j] == items[j + 1];
        }
      }
      RemovedKeepsNoDuplicates(items[1..], entry);
      var rest := Removed(items[1..], entry);
      if items[0] != entry {
        assert items[0] !in rest by {
          forall k | 0 < k < |items| ensures items[k] != items[0] { assert items[0] != items[k]; }
          assert items[0] !in items[1..];
        }
        var r := [items[0]] + rest;
        forall i, j | 0 <= i < j < |r| ensures r[i] != r[j] {
          if i == 0 {
            assert r[j] == rest[j - 1];
          } else {
            assert r[i] == rest[i - 1] && r[j] == rest[j - 1];
          }
        }
      }
    }
  }

  /** Toggling membership: a present entry is removed, an absent one is appended. */
  function Toggled(items: seq<string>, entry: string): (r: seq<string>)
    ensures entry in r <==> entry !in items
    ensures forall x :: x != entry ==> (x in r <==> x in items)
  {
    if entry in items then Removed(items, entry) else items + [entry]
  }

  /** Toggling never creates a duplicate. */
  lemma ToggledKeepsNoDuplicates(items: seq<string>, entry: string)
    requires NoDuplicates(items)
    ensures NoDuplicates(Toggled(items, entry))
  {
    if entry in items {
      RemovedKeepsNoDuplicates(items, entry);
    } else {
      var r := items + [entry];
      forall i, j | 0 <= i < j < |r| ensures r[i] != r[j] {
        if j == |items| {
          assert r[i] == items[i];
        } else {
          assert r[i] == items[i] && r[j] == items[j];
        }
      }
    }
  }

  /** Toggling twice restores membership; from a collapsed group it restores the very list. */
  lemma ToggleTwice(items: seq<string>, entry: string)
    ensures forall x :: x in Toggled(Toggled(items, entry), entry) <==> x in items
    ensures entry !in items ==> Toggled(Toggled(items, entry), entry) == items
  {
    if entry !in items {
      RemovedAppended(items, entry);
    }
  }
}
