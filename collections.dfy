/**
 * The collections hook: the user's `collections`, newest first, creating one,
 * and linking images to collections through `collection_images`.
 */
module Collections {
  import opened Wrappers
  import opened Backend
  import Sequences

  datatype Collection = Collection(
    id: string,
    userId: string,
    name: string,
    description: Option<string>,
    isPublic: bool,
    coverImageId: Option<string>,
    createdAt: int,
    updatedAt: int)

  /** One row of `collection_images`. */
  datatype Link = Link(collectionId: string, imageId: string)

  function CreatedAt(c: Collection): int {
    c.createdAt
  }

  /** What `order('created_at', { ascending: false })` returns: every collection, newest first. */
  function NewestFirst(cs: seq<Collection>): (r: seq<Collection>)
    ensures multiset(r) == multiset(cs)
    ensures forall i, j :: 0 <= i < j < |r| ==> r[i].createdAt >= r[j].createdAt
  {
    Sequences.SortDesc(cs, CreatedAt)
  }

  /**
   * `.delete().eq('collection_id', c).eq('image_id', i)`: every row of that
   * pair goes, every other row stays, as many times as it was there, in order.
   */
  function Unlink(links: seq<Link>, collectionId: string, imageId: string): (r: seq<Link>)
    ensures forall l :: l in r <==> l in links && l != Link(collectionId, imageId)
    ensures forall l :: l != Link(collectionId, imageId) ==> multiset(r)[l] == multiset(links)[l]
    ensures multiset(r)[Link(collectionId, imageId)] == 0
    ensures Sequences.IsSubsequence(r, links)
  {
    var p := (l: Link) => !(l.collectionId == collectionId && l.imageId == imageId);
    Sequences.FilterIsSubsequence(links, p);
    forall l ensures multiset(Sequences.Filter(links, p))[l] == if p(l) then multiset(links)[l] else 0 {
      Sequences.FilterCounts(links, p, l);
    }
    Sequences.Filter(links, p)
  }

  /** Linking the same image twice keeps two rows: there is no duplicate check. */
  lemma LinkTwiceKeepsBoth(links: seq<Link>, collectionId: string, imageId: string)
    ensures multiset(links + [Link(collectionId, imageId)] + [Link(collectionId, imageId)])[Link(collectionId, imageId)]
         == multiset(links)[Link(collectionId, imageId)] + 2
  {
  }

  /** Unlinking undoes a link of a pair the list did not hold before. */
  lemma UnlinkAfterLink(links: seq<Link>, collectionId: string, imageId: string)
    requires Link(collectionId, imageId) !in links
    ensures Unlink(links + [Link(collectionId, imageId)], collectionId, imageId) == links
  {
    var p := (l: Link) => !(l.collectionId == collectionId && l.imageId == imageId);
    Sequences.FilterAppend(links, [Link(collectionId, imageId)], p);
    Sequences.FilterAll(links, p);
  }

  /** The signed-in user's rows in `collections` and `collection_images`. */
  class CollectionStore {
    var collections: seq<Collection>
    var links: seq<Link>

    constructor (collections: seq<Collection>, links: seq<Link>)
      ensures this.collections == collections && this.links == links
    {
      this.collections := collections;
      this.links := links;
    }
  }

  class CollectionsHook {
    const store: CollectionStore
    var collections: seq<Collection>
    var loading: bool

    constructor (store: CollectionStore)
      ensures this.store == store && collections == [] && !loading
    {
      this.store := store;
      collections := [];
      loading := false;
    }

    /**
     * `fetchCollections`, also run on mount and as `refetch`: every collection
     * newest first, `[]` when no data comes back, the old list when the call
     * throws; `loading` ends false.
     */
    method FetchCollections(read: Reply)
      modifies this`collections, this`loading
      ensures collections == match read
                             case Applied => NewestFirst(store.collections)
                             case Rejected => []
                             case Raised => old(collections)
      ensures !loading
    {
      loading := true;
      match read {
        case Applied => collections := NewestFirst(store.collections);
        case Rejected => collections := [];
        case Raised =>
      }
      loading := false;
    }

    /**
     * `createCollection(name, description, isPublic = false)`. When the insert
     * returns the new row it goes first in the list and is returned; otherwise
     * the list is unchanged and nothing is returned.
     */
    method CreateCollection(name: string, description: Option<string>, userId: string, newId: string,
                            now: int, write: Reply, isPublic: bool := false)
      returns (created: Option<Collection>)
      modifies this`collections, store
      ensures write == Applied ==>
        created == Some(Collection(newId, userId, name, description, isPublic, None, now, now))
        && collections == [created.value] + old(collections)
        && store.collections == old(store.collections) + [created.value]
      ensures write != Applied ==>
        created.None? && collections == old(collections) && store.collections == old(store.collections)
      ensures store.links == old(store.links)
    {
      if write == Applied {
        var c := Collection(newId, userId, name, description, isPublic, None, now, now);
        store.collections := store.collections + [c];
        collections := [c] + collections;
        created := Some(c);
      } else {
        created := None;
      }
    }

    /** `addImageToCollection`: one more link row, whatever is already there. */
    method AddImageToCollection(collectionId: string, imageId: string, write: Reply)
      modifies store`links
      ensures store.links == if write == Applied then old(store.links) + [Link(collectionId, imageId)]
                             else old(store.links)
    {
      if write == Applied {
        store.links := store.links + [Link(collectionId, imageId)];
      }
    }

    /** `removeImageFromCollection`: no link of that pair remains; every other link stays. */
    method RemoveImageFromCollection(collectionId: string, imageId: string, write: Reply)
      modifies store`links
      ensures write == Applied ==> store.links == Unlink(old(store.links), collectionId, imageId)
      ensures write == Applied ==> Link(collectionId, imageId) !in store.links
      ensures write != Applied ==> store.links == old(store.links)
    {
      if write == Applied {
        store.links := Unlink(store.links, collectionId, imageId);
      }
    }
  }
}
