/**
 * The image interaction hook over the `image_interactions` table: toggling a
 * like or bookmark, recording a view, and listing an image's interactions.
 */
module ImageInteractions {
  import opened Wrappers
  import opened Backend
  import Sequences

  datatype InteractionKind = Like | Bookmark | Share | Download | View

  /** The kinds `toggleInteraction` accepts. */
  type ToggleKind = k: InteractionKind | k == Like || k == Bookmark witness Like

  datatype Interaction = Interaction(id: string, userId: string, imageId: string, kind: InteractionKind, createdAt: int)

  /** The rows `.eq('image_id', imageId).eq('interaction_type', kind)` selects. */
  function Matches(rows: seq<Interaction>, imageId: string, kind: InteractionKind): (r: seq<Interaction>)
    ensures forall x :: x in r <==> x in rows && x.imageId == imageId && x.kind == kind
    ensures |r| <= |rows|
  {
    Sequences.Filter(rows, (x: Interaction) => x.imageId == imageId && x.kind == kind)
  }

  /** The row `.single()` hands back: only when exactly one row matches. */
  function Single(rows: seq<Interaction>, imageId: string, kind: InteractionKind): (r: Option<Interaction>)
    ensures r.Some? <==> |Matches(rows, imageId, kind)| == 1
    ensures r.Some? ==> r.value in rows && r.value.imageId == imageId && r.value.kind == kind
  {
    var m := Matches(rows, imageId, kind);
    if |m| == 1 then Some(m[0]) else None
  }

  /** `.delete().eq('id', id)`. */
  function WithoutId(rows: seq<Interaction>, id: string): (r: seq<Interaction>)
    ensures forall x :: x in r <==> x in rows && x.id != id
  {
    Sequences.Filter(rows, (x: Interaction) => x.id != id)
  }

  predicate UniqueIds(rows: seq<Interaction>) {
    forall i, j :: 0 <= i < j < |rows| ==> rows[i].id != rows[j].id
  }

  predicate FreshId(rows: seq<Interaction>, id: string) {
    forall i :: 0 <= i < |rows| ==> rows[i].id != id
  }

  /** The table after a toggle whose reads and writes all go through. */
  function Toggled(rows: seq<Interaction>, imageId: string, kind: ToggleKind,
                   userId: string, newId: string, now: int): seq<Interaction>
  {
    match Single(rows, imageId, kind)
    case Some(existing) => WithoutId(rows, existing.id)
    case None => rows + [Interaction(newId, userId, imageId, kind, now)]
  }

  lemma MatchesAppend(rows: seq<Interaction>, x: Interaction, imageId: string, kind: InteractionKind)
    ensures Matches(rows + [x], imageId, kind)
         == Matches(rows, imageId, kind) + (if x.imageId == imageId && x.kind == kind then [x] else [])
  {
    var p := (y: Interaction) => y.imageId == imageId && y.kind == kind;
    Sequences.FilterAppend(rows, [x], p);
  }

  /** Removing a row by its id removes it from every selection it belonged to, and nothing else. */
  lemma {:induction false} MatchesWithoutId(rows: seq<Interaction>, x: Interaction, imageId: string, kind: InteractionKind)
    requires UniqueIds(rows) && x in rows
    ensures |Matches(WithoutId(rows, x.id), imageId, kind)|
         == |Matches(rows, imageId, kind)| - (if x.imageId == imageId && x.kind == kind then 1 else 0)
  {
    if rows[0] == x {
      WithoutFirst(rows, imageId, kind);
    } else {
      assert x in rows[1..];
      UniqueTail(rows);
      MatchesWithoutId(rows[1..], x, imageId, kind);
      var k :| 0 <= k < |rows| && rows[k] == x;
      assert rows[0].id != x.id by { assert k != 0; }
      WithoutOther(rows, x.id, imageId, kind);
    }
  }

  lemma UniqueTail(rows: seq<Interaction>)
    requires UniqueIds(rows) && rows != []
    ensures UniqueIds(rows[1..])
  {
    forall i, j | 0 <= i < j < |rows[1..]| ensures rows[1..][i].id != rows[1..][j].id {
      assert rows[1..][i] == rows[i + 1] && rows[1..][j] == rows[j + 1];
    }
  }

  /** Deleting the id of the first row, which no other row shares, drops just that row. */
  lemma WithoutFirst(rows: seq<Interaction>, imageId: string, kind: InteractionKind)
    requires UniqueIds(rows) && rows != []
    ensures |Matches(WithoutId(rows, rows[0].id), imageId, kind)|
         == |Matches(rows, imageId, kind)| - (if rows[0].imageId == imageId && rows[0].kind == kind then 1 else 0)
  {
    var x := rows[0];
    assert FreshId(rows[1..], x.id) by {
      forall i | 0 <= i < |rows[1..]| ensures rows[1..][i].id != x.id {
        assert rows[1..][i] == rows[i + 1];
      }
    }
    NoneWithId(rows[1..], x.id);
    assert WithoutId(rows, x.id) == WithoutId(rows[1..], x.id);
    assert rows == [x] + rows[1..];
    MatchesAppendFront(x, rows[1..], imageId, kind);
  }

  /** Deleting an id the first row does not carry keeps the first row in front. */
  lemma WithoutOther(rows: seq<Interaction>, id: string, imageId: string, kind: InteractionKind)
    requires rows != [] && rows[0].id != id
    ensures |Matches(WithoutId(rows, id), imageId, kind)| - |Matches(rows, imageId, kind)|
         == |Matches(WithoutId(rows[1..], id), imageId, kind)| - |Matches(rows[1..], imageId, kind)|
  {
    assert WithoutId(rows, id) == [rows[0]] + WithoutId(rows[1..], id);
    assert rows == [rows[0]] + rows[1..];
    MatchesAppendFront(rows[0], rows[1..], imageId, kind);
    MatchesAppendFront(rows[0], WithoutId(rows[1..], id), imageId, kind);
  }

  lemma MatchesAppendFront(x: Interaction, rows: seq<Interaction>, imageId: string, kind: InteractionKind)
    ensures |Matches([x] + rows, imageId, kind)|
         == |Matches(rows, imageId, kind)| + (if x.imageId == imageId && x.kind == kind then 1 else 0)
  {
    assert ([x] + rows)[1..] == rows;
  }

  /** With no row carrying `id`, deleting by `id` changes nothing. */
  lemma {:induction false} NoneWithId(rows: seq<Interaction>, id: string)
    requires FreshId(rows, id)
    ensures WithoutId(rows, id) == rows
  {
    Sequences.FilterAll(rows, (x: Interaction) => x.id != id);
  }

  /**
   * With at most one row per image and kind, a toggle flips whether the row
   * exists: it removes the one row, or adds one.
   */
  lemma ToggleFlips(rows: seq<Interaction>, imageId: string, kind: ToggleKind,
                    userId: string, newId: string, now: int)
    requires UniqueIds(rows) && FreshId(rows, newId)
    requires |Matches(rows, imageId, kind)| <= 1
    ensures |Matches(Toggled(rows, imageId, kind, userId, newId, now), imageId, kind)|
         == 1 - |Matches(rows, imageId, kind)|
    ensures UniqueIds(Toggled(rows, imageId, kind, userId, newId, now))
  {
    var next := Toggled(rows, imageId, kind, userId, newId, now);
    match Single(rows, imageId, kind)
    case Some(existing) =>
      MatchesWithoutId(rows, existing, imageId, kind);
      var p := (x: Interaction) => x.id != existing.id;
      Sequences.FilterIsSubsequence(rows, p);
      SubsequenceKeepsUnique(next, rows);
    case None =>
      var x := Interaction(newId, userId, imageId, kind, now);
      MatchesAppend(rows, x, imageId, kind);
  }

  lemma {:induction false} SubsequenceKeepsUnique(a: seq<Interaction>, b: seq<Interaction>)
    requires Sequences.IsSubsequence(a, b) && UniqueIds(b)
    ensures UniqueIds(a)
  {
    if a != [] && b != [] {
      assert UniqueIds(b[1..]) by {
        forall i, j | 0 <= i < j < |b[1..]| ensures b[1..][i].id != b[1..][j].id {
          assert b[1..][i] == b[i + 1] && b[1..][j] == b[j + 1];
        }
      }
      if a[0] == b[0] && Sequences.IsSubsequence(a[1..], b[1..]) {
        SubsequenceKeepsUnique(a[1..], b[1..]);
        forall j | 0 < j < |a| ensures a[0].id != a[j].id {
          assert a[j] == a[1..][j - 1];
          SubsequenceMember(a[1..], b[1..], j - 1);
        }
      } else {
        SubsequenceKeepsUnique(a, b[1..]);
      }
    }
  }

  lemma {:induction false} SubsequenceMember<T>(a: seq<T>, b: seq<T>, i: nat)
    requires Sequences.IsSubsequence(a, b) && i < |a|
    ensures exists j :: 0 <= j < |b| && b[j] == a[i]
  {
    if a[0] == b[0] && Sequences.IsSubsequence(a[1..], b[1..]) {
      if i > 0 {
        SubsequenceMember(a[1..], b[1..], i - 1);
        var j :| 0 <= j < |b[1..]| && b[1..][j] == a[1..][i - 1];
        assert b[j + 1] == a[i];
      } else {
        assert b[0] == a[i];
      }
    } else {
      SubsequenceMember(a, b[1..], i);
      var j :| 0 <= j < |b[1..]| && b[1..][j] == a[i];
      assert b[j + 1] == a[i];
    }
  }

  /** Two toggles that go through restore whether the image is liked (or bookmarked). */
  lemma ToggleTwiceRestores(rows: seq<Interaction>, imageId: string, kind: ToggleKind,
                            userId: string, id1: string, id2: string, now1: int, now2: int)
    requires UniqueIds(rows) && FreshId(rows, id1) && FreshId(rows, id2) && id1 != id2
    requires |Matches(rows, imageId, kind)| <= 1
    ensures |Matches(Toggled(Toggled(rows, imageId, kind, userId, id1, now1), imageId, kind, userId, id2, now2),
                     imageId, kind)|
         == |Matches(rows, imageId, kind)|
  {
    var once := Toggled(rows, imageId, kind, userId, id1, now1);
    ToggleFlips(rows, imageId, kind, userId, id1, now1);
    assert FreshId(once, id2) by {
      forall i | 0 <= i < |once| ensures once[i].id != id2 {
        match Single(rows, imageId, kind)
        case Some(existing) =>
          assert once[i] in WithoutId(rows, existing.id);
          assert once[i] in rows;
        case None =>
          assert once == rows + [Interaction(id1, userId, imageId, kind, now1)];
          if i < |rows| { assert once[i] == rows[i]; }
      }
    }
    ToggleFlips(once, imageId, kind, userId, id2, now2);
  }

  /**
   * Once two rows exist for the same image and kind, `.single()` finds none,
   * so every further toggle adds a row and the like can no longer be removed.
   */
  lemma DuplicatesOnlyGrow(rows: seq<Interaction>, imageId: string, kind: ToggleKind,
                           userId: string, newId: string, now: int)
    requires |Matches(rows, imageId, kind)| >= 2
    ensures |Matches(Toggled(rows, imageId, kind, userId, newId, now), imageId, kind)|
         == |Matches(rows, imageId, kind)| + 1
  {
    MatchesAppend(rows, Interaction(newId, userId, imageId, kind, now), imageId, kind);
  }

  /** The number of rows of one kind. */
  function KindCount(rows: seq<Interaction>, kind: InteractionKind): nat {
    Sequences.Count(rows, (x: Interaction) => x.kind == kind)
  }

  /** The rows the signed-in user can see in `image_interactions`. */
  class InteractionTable {
    var rows: seq<Interaction>

    constructor (rows: seq<Interaction>)
      ensures this.rows == rows
    {
      this.rows := rows;
    }
  }

  class InteractionsHook {
    const table: InteractionTable
    var loading: bool

    constructor (table: InteractionTable)
      ensures this.table == table && !loading
    {
      this.table := table;
      loading := false;
    }

    /**
     * `toggleInteraction(imageId, kind)`. `read` is how the existence query
     * ended (a client error yields no row, like zero or several matches) and
     * `write` how the delete or insert ended. Write errors the client returns
     * are not checked: the result is `true` whenever the insert branch runs
     * to its end. Only an exception yields `false` on that branch.
     */
    method ToggleInteraction(imageId: string, kind: ToggleKind, userId: string, newId: string, now: int,
                             read: Reply, write: Reply) returns (added: bool)
      modifies this`loading, table
      ensures !loading
      ensures read == Raised ==> !added && table.rows == old(table.rows)
      ensures read == Applied && old(Single(table.rows, imageId, kind)).Some? ==>
        !added
        && table.rows == if write == Applied
                         then WithoutId(old(table.rows), old(Single(table.rows, imageId, kind)).value.id)
                         else old(table.rows)
      ensures read == Rejected || (read == Applied && old(Single(table.rows, imageId, kind)).None?) ==>
        (added <==> write != Raised)
        && table.rows == if write == Applied
                         then old(table.rows) + [Interaction(newId, userId, imageId, kind, now)]
                         else old(table.rows)
      ensures read == Applied && write == Applied ==>
        table.rows == Toggled(old(table.rows), imageId, kind, userId, newId, now)
    {
      loading := true;
      if read == Raised {
        added := false;
      } else {
        var existing := if read == Applied then Single(table.rows, imageId, kind) else None;
        if existing.Some? {
          if write == Applied {
            table.rows := WithoutId(table.rows, existing.value.id);
          }
          added := false;
        } else {
          if write == Applied {
            table.rows := table.rows + [Interaction(newId, userId, imageId, kind, now)];
          }
          added := write != Raised;
        }
      }
      loading := false;
    }

    /** `trackView(imageId)`: at most one `view` row is added, and nothing is removed. */
    method TrackView(imageId: string, userId: string, newId: string, now: int, write: Reply)
      modifies table
      ensures table.rows == if write == Applied
                            then old(table.rows) + [Interaction(newId, userId, imageId, View, now)]
                            else old(table.rows)
      ensures KindCount(table.rows, View) == KindCount(old(table.rows), View) + (if write == Applied then 1 else 0)
      ensures forall k :: k != View ==> KindCount(table.rows, k) == KindCount(old(table.rows), k)
    {
      var view := Interaction(newId, userId, imageId, View, now);
      if write == Applied {
        forall k ensures KindCount(table.rows + [view], k)
                      == KindCount(table.rows, k) + (if k == View then 1 else 0) {
          CountAppend(table.rows, view, k);
        }
        table.rows := table.rows + [view];
      }
    }

    /** `getInteractions(imageId)`: every row for the image, or `[]` when no data comes back. */
    method GetInteractions(imageId: string, read: Reply) returns (r: seq<Interaction>)
      ensures read == Applied ==>
        forall x :: x in r <==> x in table.rows && x.imageId == imageId
      ensures read == Applied ==> Sequences.IsSubsequence(r, table.rows)
      ensures read != Applied ==> r == []
    {
      if read == Applied {
        var p := (x: Interaction) => x.imageId == imageId;
        r := Sequences.Filter(table.rows, p);
        Sequences.FilterIsSubsequence(table.rows, p);
      } else {
        r := [];
      }
    }
  }

  lemma CountAppend(rows: seq<Interaction>, x: Interaction, k: InteractionKind)
    ensures KindCount(rows + [x], k) == KindCount(rows, k) + (if x.kind == k then 1 else 0)
  {
    var p := (y: Interaction) => y.kind == k;
    Sequences.FilterAppend(rows, [x], p);
    Sequences.FilterLength(rows + [x], p);
    Sequences.FilterLength(rows, p);
    Sequences.FilterLength([x], p);
  }
}
