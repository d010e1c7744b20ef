/** A JavaScript `Set` of strings, kept as a duplicate-free sequence in
    insertion order: the order in which `Array.from` lists its elements. */
module OrderedSet {

  /** No element occurs twice. */
  ghost predicate NoDup(s: seq<string>)
  {
    forall i, j :: 0 <= i < j < |s| ==> s[i] != s[j]
  }

  /** The elements of `s`, forgetting order. */
  ghost function Elems(s: seq<string>): set<string>
  {
    set x | x in s
  }

  /** `Set.prototype.add`: an element already present keeps its place,
      a new element is placed after all the others. */
  function Add(s: seq<string>, x: string): (r: seq<string>)
    ensures Elems(r) == Elems(s) + {x}
    ensures NoDup(s) ==> NoDup(r)
    ensures |s| <= |r| <= |s| + 1 && r[..|s|] == s
  {
    if x in s then s else s + [x]
  }

  /** `Set.prototype.delete`: removes `x`, the others keep their order. */
  function Delete(s: seq<string>, x: string): (r: seq<string>)
    ensures Elems(r) == Elems(s) - {x}
    ensures NoDup(s) ==> NoDup(r)
    ensures |r| <= |s|
  {
    if s == [] then []
    else if s[0] == x then
      ElemsCons(s[0], s[1..]);
      Delete(s[1..], x)
    else
      var rest := Delete(s[1..], x);
      ElemsCons(s[0], s[1..]);
      ElemsCons(s[0], rest);
      NoDupCons(s[0], s[1..]);
      NoDupCons(s[0], rest);
      [s[0]] + rest
  }

  /** The elements of a sequence are its head and the elements of its tail. */
  lemma ElemsCons(a: string, s: seq<string>)
    ensures Elems([a] + s) == {a} + Elems(s)
  {
    assert forall y :: y in [a] + s <==> y == a || y in s;
  }

  /** A sequence with a head is duplicate-free exactly when its tail is and
      the head does not occur in the tail. */
  lemma NoDupCons(a: string, s: seq<string>)
    ensures NoDup([a] + s) <==> NoDup(s) && a !in s
  {
    var t := [a] + s;
    if NoDup(t) {
      forall i, j | 0 <= i < j < |s|
        ensures s[i] != s[j]
      {
        assert t[i + 1] == s[i] && t[j + 1] == s[j];
      }
      forall j | 0 <= j < |s|
        ensures s[j] != a
      {
        assert t[0] == a && t[j + 1] == s[j];
      }
    }
    if NoDup(s) && a !in s {
      forall i, j | 0 <= i < j < |t|
        ensures t[i] != t[j]
      {
        if i == 0 {
          assert t[j] == s[j - 1];
        } else {
          assert t[i] == s[i - 1] && t[j] == s[j - 1];
        }
      }
    }
  }

  /** Deleting an absent element changes nothing. */
  lemma {:induction false} DeleteAbsent(s: seq<string>, x: string)
    requires x !in s
    ensures Delete(s, x) == s
  {
    if s != [] {
      DeleteAbsent(s[1..], x);
    }
  }

  /** Deletion distributes over concatenation. */
  lemma {:induction false} DeleteConcat(a: seq<string>, b: seq<string>, x: string)
    ensures Delete(a + b, x) == Delete(a, x) + Delete(b, x)
  {
    if a != [] {
      assert (a + b)[1..] == a[1..] + b;
      DeleteConcat(a[1..], b, x);
    } else {
      assert a + b == b;
    }
  }

  /** In a duplicate-free sequence the element at index `k` occurs neither
      before nor after that index. */
  lemma OnlyAt(s: seq<string>, k: nat)
    requires NoDup(s) && k < |s|
    ensures s[k] !in s[..k] && s[k] !in s[k + 1..]
  {
    forall i | 0 <= i < k
      ensures s[..k][i] != s[k]
    {
      assert s[..k][i] == s[i];
    }
    var tail := s[k + 1..];
    forall j | 0 <= j < |tail|
      ensures tail[j] != s[k]
    {
      assert tail[j] == s[k + 1 + j];
    }
  }

  /** Deleting an element that occurs once cuts out exactly that occurrence. */
  lemma DeleteAround(before: seq<string>, x: string, after: seq<string>)
    requires x !in before && x !in after
    ensures Delete(before + [x] + after, x) == before + after
  {
    var t := [x] + after;
    assert t[0] == x && t[1..] == after;
    assert Delete(t, x) == Delete(after, x);
    DeleteAbsent(after, x);
    DeleteAbsent(before, x);
    DeleteConcat(before, t, x);
    assert before + [x] + after == before + t;
  }

  /** In a duplicate-free sequence, deleting the element at index `k`
      cuts out exactly that slot. */
  lemma DeleteCutsSlot(s: seq<string>, k: nat)
    requires NoDup(s) && k < |s|
    ensures Delete(s, s[k]) == s[..k] + s[k + 1..]
  {
    OnlyAt(s, k);
    assert s == s[..k] + [s[k]] + s[k + 1..];
    DeleteAround(s[..k], s[k], s[k + 1..]);
  }

  /** Adding a new element and deleting it again restores the sequence,
      order included. */
  lemma AddThenDelete(s: seq<string>, x: string)
    requires x !in s
    ensures Delete(Add(s, x), x) == s
  {
    DeleteConcat(s, [x], x);
    DeleteAbsent(s, x);
    assert Delete([x], x) == [];
    assert s + [] == s;
  }

  /** Re-adding an element that was deleted moves it to the end. */
  lemma DeleteThenAddMovesLast(s: seq<string>, k: nat)
    requires NoDup(s) && k < |s|
    ensures Add(Delete(s, s[k]), s[k]) == s[..k] + s[k + 1..] + [s[k]]
  {
    DeleteCutsSlot(s, k);
  }
}
