/** The list transformations every record page applies to its in-memory collection:
    an edit replaces by id (`map`), a create prepends (spread), a delete removes by
    id (`filter`), and a delete first looks the record up (`find`). They are written
    once here, over any record type, with `key` giving a record's `id`. */
module RecordList {
  import opened Wrappers

  /** Some record in `s` carries `id`. */
  predicate HasId<T>(s: seq<T>, id: string, key: T -> string) {
    exists i :: 0 <= i < |s| && key(s[i]) == id
  }

  /** No two records of `s` share an id. */
  predicate UniqueIds<T>(s: seq<T>, key: T -> string) {
    forall i, j :: 0 <= i < j < |s| ==> key(s[i]) != key(s[j])
  }

  /** The id a dialog gives the record it submits: `defaultValues?.id || crypto.randomUUID()`.
      The id of the record being edited is kept unless it is absent or empty (both falsy);
      otherwise the freshly generated `freshId` is used. */
  function KeptOrFreshId(editedId: Option<string>, freshId: string): (id: string)
    ensures editedId.Some? && editedId.value != "" ==> id == editedId.value
    ensures editedId.None? || editedId.value == "" ==> id == freshId
  {
    if editedId.Some? && editedId.value != "" then editedId.value else freshId
  }

  /** An edit: `list.map(r => r.id === x.id ? x : r)`. */
  function ReplaceById<T>(s: seq<T>, x: T, key: T -> string): (r: seq<T>)
    ensures |r| == |s|
    ensures forall i :: 0 <= i < |s| && key(s[i]) == key(x) ==> r[i] == x
    ensures forall i :: 0 <= i < |s| && key(s[i]) != key(x) ==> r[i] == s[i]
  {
    if s == [] then []
    else [if key(s[0]) == key(x) then x else s[0]] + ReplaceById(s[1..], x, key)
  }

  /** A delete: `list.filter(r => r.id !== id)`. */
  function RemoveById<T>(s: seq<T>, id: string, key: T -> string): (r: seq<T>)
    ensures |r| <= |s|
    ensures forall i :: 0 <= i < |r| ==> r[i] in s && key(r[i]) != id
    ensures forall i :: 0 <= i < |s| && key(s[i]) != id ==> s[i] in r
  {
    if s == [] then []
    else (if key(s[0]) == id then [] else [s[0]]) + RemoveById(s[1..], id, key)
  }

  /** The look-up before a delete: `list.find(r => r.id === id)`. */
  function FindById<T>(s: seq<T>, id: string, key: T -> string): (r: Option<T>)
    ensures r.Some? <==> HasId(s, id, key)
    ensures r.Some? ==> r.value in s && key(r.value) == id
  {
    if s == [] then None
    else if key(s[0]) == id then Some(s[0])
    else
      HasIdTail(s, id, key);
      FindById(s[1..], id, key)
  }

  /** Helper: when the head does not carry `id`, `s` has it iff its tail has it. */
  lemma HasIdTail<T>(s: seq<T>, id: string, key: T -> string)
    requires s != [] && key(s[0]) != id
    ensures HasId(s, id, key) <==> HasId(s[1..], id, key)
  {
    if HasId(s, id, key) {
      var i :| 0 <= i < |s| && key(s[i]) == id;
      assert key(s[1..][i - 1]) == id;
    }
    if HasId(s[1..], id, key) {
      var i :| 0 <= i < |s[1..]| && key(s[1..][i]) == id;
      assert key(s[i + 1]) == id;
    }
  }

  /** `find` returns the FIRST record carrying the id. */
  lemma {:induction false} FindByIdFirst<T>(s: seq<T>, id: string, key: T -> string, k: nat)
    requires k < |s| && key(s[k]) == id
    requires forall j :: 0 <= j < k ==> key(s[j]) != id
    ensures FindById(s, id, key) == Some(s[k])
  {
    if k > 0 {
      FindByIdFirst(s[1..], id, key, k - 1);
    }
  }

  /** An edit whose id is absent leaves the list unchanged. */
  lemma ReplaceByIdAbsent<T>(s: seq<T>, x: T, key: T -> string)
    requires !HasId(s, key(x), key)
    ensures ReplaceById(s, x, key) == s
  {
  }

  /** With unique ids, an edit replaces exactly the one record with that id, in its place:
      length, order and every other record are unchanged. */
  lemma ReplaceByIdUnique<T>(s: seq<T>, x: T, key: T -> string, k: nat)
    requires UniqueIds(s, key)
    requires k < |s| && key(s[k]) == key(x)
    ensures ReplaceById(s, x, key) == s[k := x]
  {
  }

  /** An edit keeps the sequence of ids, so it keeps ids unique. */
  lemma ReplaceByIdKeepsIds<T>(s: seq<T>, x: T, key: T -> string)
    ensures forall i :: 0 <= i < |s| ==> key(ReplaceById(s, x, key)[i]) == key(s[i])
    ensures UniqueIds(s, key) ==> UniqueIds(ReplaceById(s, x, key), key)
  {
  }

  /** Submitting the same edit twice has the effect of submitting it once. */
  lemma ReplaceByIdIdempotent<T>(s: seq<T>, x: T, key: T -> string)
    ensures ReplaceById(ReplaceById(s, x, key), x, key) == ReplaceById(s, x, key)
  {
  }

  /** A create with an id not yet in use keeps ids unique. */
  lemma PrependFreshKeepsUnique<T>(s: seq<T>, x: T, key: T -> string)
    requires UniqueIds(s, key) && !HasId(s, key(x), key)
    ensures UniqueIds([x] + s, key)
  {
    forall i, j | 0 <= i < j < |[x] + s|
      ensures key(([x] + s)[i]) != key(([x] + s)[j])
    {
      if i == 0 {
        assert ([x] + s)[j] == s[j - 1];
      }
    }
  }

  /** A delete of an id that is absent leaves the list unchanged. */
  lemma {:induction false} RemoveByIdAbsent<T>(s: seq<T>, id: string, key: T -> string)
    requires !HasId(s, id, key)
    ensures RemoveById(s, id, key) == s
  {
    if s != [] {
      HasIdTail(s, id, key);
      RemoveByIdAbsent(s[1..], id, key);
      assert [s[0]] + s[1..] == s;
    }
  }

  /** Deleting distributes over concatenation: every record that is kept keeps its
      position relative to the other kept records. */
  lemma {:induction false} RemoveByIdConcat<T>(a: seq<T>, b: seq<T>, id: string, key: T -> string)
    ensures RemoveById(a + b, id, key) == RemoveById(a, id, key) + RemoveById(b, id, key)
  {
    if a != [] {
      assert (a + b)[1..] == a[1..] + b;
      RemoveByIdConcat(a[1..], b, id, key);
    } else {
      assert a + b == b;
    }
  }

  /** With unique ids, a delete removes exactly the one record with that id and keeps
      the rest in order. */
  lemma RemoveByIdUnique<T>(s: seq<T>, id: string, key: T -> string, k: nat)
    requires UniqueIds(s, key)
    requires k < |s| && key(s[k]) == id
    ensures RemoveById(s, id, key) == s[..k] + s[k + 1..]
  {
    var before, after := s[..k], s[k + 1..];
    assert !HasId(before, id, key) by {
      forall i | 0 <= i < |before| ensures key(before[i]) != id {
        assert before[i] == s[i];
      }
    }
    assert !HasId(after, id, key) by {
      forall i | 0 <= i < |after| ensures key(after[i]) != id {
        assert after[i] == s[k + 1 + i];
      }
    }
    RemoveOnlyMatch(before, s[k], after, id, key);
    assert s == before + [s[k]] + after;
  }

  /** Helper: removing the id from `before + [x] + after` when only `x` carries it. */
  lemma RemoveOnlyMatch<T>(before: seq<T>, x: T, after: seq<T>, id: string, key: T -> string)
    requires key(x) == id && !HasId(before, id, key) && !HasId(after, id, key)
    ensures RemoveById(before + [x] + after, id, key) == before + after
  {
    var front := before + [x];
    RemoveByIdConcat(front, after, id, key);
    RemoveByIdConcat(before, [x], id, key);
    RemoveByIdAbsent(before, id, key);
    RemoveByIdAbsent(after, id, key);
    var single := RemoveById([x], id, key);
    assert single == [] by {
      assert [x][1..] == [];
    }
    assert RemoveById(front, id, key) == before;
  }

  /** A delete keeps ids unique. */
  lemma {:induction false} RemoveByIdKeepsUnique<T>(s: seq<T>, id: string, key: T -> string)
    requires UniqueIds(s, key)
    ensures UniqueIds(RemoveById(s, id, key), key)
  {
    if s != [] {
      var tail := s[1..];
      assert UniqueIds(tail, key) by {
        forall i, j | 0 <= i < j < |tail| ensures key(tail[i]) != key(tail[j]) {
          assert tail[i] == s[i + 1] && tail[j] == s[j + 1];
        }
      }
      RemoveByIdKeepsUnique(tail, id, key);
      var rest := RemoveById(tail, id, key);
      if key(s[0]) != id {
        var r := [s[0]] + rest;
        forall i, j | 0 <= i < j < |r| ensures key(r[i]) != key(r[j]) {
          if i == 0 {
            assert r[j] == rest[j - 1];
            assert rest[j - 1] in tail;
            var m :| 0 <= m < |tail| && tail[m] == rest[j - 1];
            assert tail[m] == s[m + 1];
          } else {
            assert r[i] == rest[i - 1] && r[j] == rest[j - 1];
          }
        }
      }
    }
  }

  /** Creating a record with an unused id and then deleting that id restores the list. */
  lemma {:induction false} PrependThenRemove<T>(s: seq<T>, x: T, key: T -> string)
    requires !HasId(s, key(x), key)
    ensures RemoveById([x] + s, key(x), key) == s
  {
    assert ([x] + s)[1..] == s;
    RemoveByIdAbsent(s, key(x), key);
  }

  /** After an edit of a record that is present, looking its id up finds the new version. */
  lemma {:induction false} FindAfterReplace<T>(s: seq<T>, x: T, key: T -> string)
    requires HasId(s, key(x), key)
    ensures FindById(ReplaceById(s, x, key), key(x), key) == Some(x)
  {
    if key(s[0]) != key(x) {
      HasIdTail(s, key(x), key);
      FindAfterReplace(s[1..], x, key);
    }
  }
}
