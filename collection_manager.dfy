/**
 * The collection manager panel: a dialog that creates a collection (and files
 * the current image in it), and a picker that files the image in an existing one.
 */
module CollectionManager {
  import opened Wrappers
  import opened Backend
  import Text
  import opened Collections

  /** An optional image id counts only when present and non-empty. */
  predicate HasImage(imageId: Option<string>) {
    imageId.Some? && imageId.value != []
  }

  /** The description passed on: trimmed, and left out when nothing but whitespace. */
  function DescriptionArgument(description: string): (d: Option<string>)
    ensures d.None? <==> forall i :: 0 <= i < |description| ==> Text.IsWhitespace(description[i])
    ensures d.Some? ==> d.value == Text.Trim(description) && d.value != []
  {
    Text.TrimEmptyIff(description);
    var t := Text.Trim(description);
    if t == [] then None else Some(t)
  }

  /** The dialog's Create button is enabled. */
  predicate CreateEnabled(name: string, loading: bool) {
    Text.Trim(name) != [] && !loading
  }

  /** An enabled Create button always reaches `createCollection`: its guard only refuses blank names. */
  lemma EnabledCreateIsNotBlank(name: string, loading: bool)
    requires CreateEnabled(name, loading)
    ensures exists i :: 0 <= i < |name| && !Text.IsWhitespace(name[i])
  {
    Text.TrimEmptyIff(name);
  }

  class Manager {
    const hook: CollectionsHook
    const imageId: Option<string>
    var showCreateDialog: bool
    var newName: string
    var newDescription: string
    var isPublic: bool
    var selected: string
    /** How often `onImageAdded` was called. */
    var imageAddedCalls: nat

    constructor (hook: CollectionsHook, imageId: Option<string>)
      ensures this.hook == hook && this.imageId == imageId
      ensures !showCreateDialog && newName == [] && newDescription == [] && !isPublic && selected == []
      ensures imageAddedCalls == 0
    {
      this.hook := hook;
      this.imageId := imageId;
      showCreateDialog := false;
      newName := [];
      newDescription := [];
      isPublic := false;
      selected := [];
      imageAddedCalls := 0;
    }

    /** The "add to collection" picker is shown: an image id is present and the user has a collection. */
    predicate PickerShown()
      reads this, hook
    {
      HasImage(imageId) && |hook.collections| > 0
    }

    /**
     * `handleCreateCollection`. A blank name does nothing. Otherwise the trimmed
     * name and description and the switch go to `createCollection`; when a
     * collection comes back and an image is present, the image is filed in it.
     * Whether or not that worked, the dialog closes and its fields reset.
     */
    method HandleCreateCollection(userId: string, newId: string, now: int, createWrite: Reply, linkWrite: Reply)
      modifies this, hook`collections, hook.store
      ensures Text.Trim(old(newName)) == [] ==>
        unchanged(this) && unchanged(hook) && unchanged(hook.store)
      ensures Text.Trim(old(newName)) != [] ==>
        !showCreateDialog && newName == [] && newDescription == [] && !isPublic
        && selected == old(selected)
      ensures Text.Trim(old(newName)) != [] ==>
        hook.store.collections == if createWrite == Applied
          then old(hook.store.collections) + [Collection(newId, userId, Text.Trim(old(newName)),
                 DescriptionArgument(old(newDescription)), old(isPublic), None, now, now)]
          else old(hook.store.collections)
      ensures Text.Trim(old(newName)) != [] ==>
        hook.collections == if createWrite == Applied
          then [Collection(newId, userId, Text.Trim(old(newName)),
                DescriptionArgument(old(newDescription)), old(isPublic), None, now, now)] + old(hook.collections)
          else old(hook.collections)
      ensures Text.Trim(old(newName)) != [] ==>
        hook.store.links == if createWrite == Applied && HasImage(imageId) && linkWrite == Applied
          then old(hook.store.links) + [Link(newId, imageId.value)]
          else old(hook.store.links)
      ensures imageAddedCalls == old(imageAddedCalls)
        + (if Text.Trim(old(newName)) != [] && createWrite == Applied && HasImage(imageId) then 1 else 0)
      ensures Text.Trim(old(newName)) != [] && createWrite == Applied && HasImage(imageId) ==> PickerShown()
    {
      var name := Text.Trim(newName);
      if name == [] {
        return;
      }
      CreateAndReset(name, DescriptionArgument(newDescription), userId, newId, now, createWrite, linkWrite);
    }

    /** The part of `handleCreateCollection` past its guard, for a trimmed name and description. */
    method CreateAndReset(name: string, description: Option<string>, userId: string, newId: string, now: int,
                          createWrite: Reply, linkWrite: Reply)
      modifies this, hook`collections, hook.store
      ensures !showCreateDialog && newName == [] && newDescription == [] && !isPublic
      ensures selected == old(selected)
      ensures hook.store.collections == if createWrite == Applied
        then old(hook.store.collections) + [Collection(newId, userId, name, description, old(isPublic), None, now, now)]
        else old(hook.store.collections)
      ensures hook.collections == if createWrite == Applied
        then [Collection(newId, userId, name, description, old(isPublic), None, now, now)] + old(hook.collections)
        else old(hook.collections)
      ensures hook.store.links == if createWrite == Applied && HasImage(imageId) && linkWrite == Applied
        then old(hook.store.links) + [Link(newId, imageId.value)]
        else old(hook.store.links)
      ensures imageAddedCalls == old(imageAddedCalls) + (if createWrite == Applied && HasImage(imageId) then 1 else 0)
      ensures createWrite == Applied && HasImage(imageId) ==> PickerShown()
    {
      var created := hook.CreateCollection(name, description, userId, newId, now, createWrite, isPublic);
      if created.Some? && HasImage(imageId) {
        hook.AddImageToCollection(created.value.id, imageId.value, linkWrite);
        imageAddedCalls := imageAddedCalls + 1;
      }
      showCreateDialog := false;
      newName := [];
      newDescription := [];
      isPublic := false;
    }

    /**
     * `handleAddToExistingCollection`: without a selection or an image nothing
     * happens; otherwise the image is filed in the selected collection and the
     * selection is cleared.
     */
    method HandleAddToExisting(linkWrite: Reply)
      modifies this`selected, this`imageAddedCalls, hook.store`links
      ensures old(selected) == [] || !HasImage(imageId) ==>
        selected == old(selected) && imageAddedCalls == old(imageAddedCalls)
        && hook.store.links == old(hook.store.links)
      ensures old(selected) != [] && HasImage(imageId) ==>
        selected == [] && imageAddedCalls == old(imageAddedCalls) + 1
        && hook.store.links == if linkWrite == Applied
                               then old(hook.store.links) + [Link(old(selected), imageId.value)]
                               else old(hook.store.links)
    {
      if selected == [] || !HasImage(imageId) {
        return;
      }
      hook.AddImageToCollection(selected, imageId.value, linkWrite);
      imageAddedCalls := imageAddedCalls + 1;
      selected := [];
    }
  }
}
