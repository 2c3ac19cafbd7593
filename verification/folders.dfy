/**
 * folderService: validation in front of the folder repository. Every check
 * runs before any write, so an error always leaves the table as it was.
 */
module Folders {
  import opened Wrappers
  import opened Errors
  import opened Text
  import opened Store

  /** A nil parent, or one whose key is stored. */
  predicate ParentPresent(t: FolderTable, parentId: Option<int>) {
    parentId.None? || HasFolder(t, parentId.value)
  }

  /** Some folder other than `id` has this name under this parent. */
  predicate HasOtherSibling(t: FolderTable, name: string, parentId: Option<int>, id: int) {
    exists i :: 0 <= i < |t.rows| && t.rows[i].name == name && t.rows[i].parentId == parentId && t.rows[i].id != id
  }

  /**
   * folderService.Create. The checks, in order: blank name (Invalid), parent
   * missing (NotFound), name taken under that parent (Conflict); otherwise the
   * trimmed name is stored under a fresh key.
   */
  function Create(t: FolderTable, name: string, parentId: Option<int>): (r: (Result<Folder, ServiceError>, FolderTable))
    ensures r.0.Failure? ==> r.1 == t
    ensures r.0.Success? ==>
      && r.0.value == Folder(t.nextId, TrimSpace(name), parentId)
      && r.1.rows == t.rows + [r.0.value]
  {
    var trimmed := TrimSpace(name);
    if trimmed == "" then (Failure(Invalid), t)
    else if parentId.Some? && FolderById(t, parentId.value).None? then (Failure(NotFound), t)
    else if FindFolderByName(t, trimmed, parentId).Some? then (Failure(Conflict), t)
    else
      var (f, t') := InsertFolder(t, trimmed, parentId);
      (Success(f), t')
  }

  /** Create keeps a valid table valid, under a key no stored folder had. */
  lemma CreateKeepsValid(t: FolderTable, name: string, parentId: Option<int>)
    requires FolderTableValid(t)
    ensures FolderTableValid(Create(t, name, parentId).1)
    ensures Create(t, name, parentId).0.Success? ==> !HasFolder(t, Create(t, name, parentId).0.value.id)
  {
    InsertFolderKeepsValid(t, TrimSpace(name), parentId);
  }

  /** Which error Create reports, checked in the source's order. */
  lemma CreateErrors(t: FolderTable, name: string, parentId: Option<int>)
    ensures Create(t, name, parentId).0 == Failure(Invalid) <==> IsBlank(name)
    ensures Create(t, name, parentId).0 == Failure(NotFound) <==> !IsBlank(name) && !ParentPresent(t, parentId)
    ensures Create(t, name, parentId).0 == Failure(Conflict) <==>
      !IsBlank(name) && ParentPresent(t, parentId) && HasSibling(t, TrimSpace(name), parentId)
    ensures Create(t, name, parentId).0.Success? <==>
      !IsBlank(name) && ParentPresent(t, parentId) && !HasSibling(t, TrimSpace(name), parentId)
  {
    var r := Create(t, name, parentId).0;
    if IsBlank(name) {
      assert r == Failure(Invalid);
    } else if !ParentPresent(t, parentId) {
      assert r == Failure(NotFound);
    } else if HasSibling(t, TrimSpace(name), parentId) {
      assert r == Failure(Conflict);
    } else {
      assert r.Success?;
    }
  }

  /**
   * folderService.Update. The checks, in order: blank name (Invalid), the
   * folder named as its own parent (Invalid), parent missing (NotFound),
   * folder missing (NotFound), name taken by a different folder under the new
   * parent (Conflict); otherwise the row gets the trimmed name and new parent.
   */
  function Update(t: FolderTable, id: int, name: string, parentId: Option<int>): (r: (Result<Folder, ServiceError>, FolderTable))
    ensures r.0.Failure? ==> r.1 == t
    ensures r.0.Success? ==>
      && HasFolder(t, id)
      && r.0.value == Folder(id, TrimSpace(name), parentId)
      && r.1 == ReplaceFolder(t, id, TrimSpace(name), parentId)
  {
    var trimmed := TrimSpace(name);
    if trimmed == "" then (Failure(Invalid), t)
    else if parentId == Some(id) then (Failure(Invalid), t)
    else if parentId.Some? && FolderById(t, parentId.value).None? then (Failure(NotFound), t)
    else if FolderById(t, id).None? then (Failure(NotFound), t)
    else
      var existing := FindFolderByName(t, trimmed, parentId);
      if existing.Some? && existing.value.id != id then (Failure(Conflict), t)
      else
        (Success(Folder(id, trimmed, parentId)), ReplaceFolder(t, id, trimmed, parentId))
  }

  /** Update keeps a valid table valid: the moved or renamed folder takes no sibling's name. */
  lemma UpdateKeepsValid(t: FolderTable, id: int, name: string, parentId: Option<int>)
    requires FolderTableValid(t)
    ensures FolderTableValid(Update(t, id, name, parentId).1)
  {
    var r := Update(t, id, name, parentId);
    if r.0.Success? {
      var trimmed := TrimSpace(name);
      var existing := FindFolderByName(t, trimmed, parentId);
      assert existing.None? || existing.value.id == id;
      NoOtherSiblingWhenFirstMatchIsSelf(t, id, trimmed, parentId);
      ReplaceKeepsValid(t, id, trimmed, parentId);
    }
  }

  /** Update answers Invalid exactly for a blank name or a folder named as its own parent. */
  lemma UpdateInvalid(t: FolderTable, id: int, name: string, parentId: Option<int>)
    ensures Update(t, id, name, parentId).0 == Failure(Invalid) <==> IsBlank(name) || parentId == Some(id)
  {
    var r := Update(t, id, name, parentId).0;
    if !IsBlank(name) && parentId != Some(id) {
      assert r != Failure(Invalid);
    }
  }

  /**
   * Update answers NotFound exactly when the name is usable and not
   * self-parenting but the parent or the folder itself is missing.
   */
  lemma UpdateNotFound(t: FolderTable, id: int, name: string, parentId: Option<int>)
    ensures Update(t, id, name, parentId).0 == Failure(NotFound) <==>
      !IsBlank(name) && parentId != Some(id) && (!ParentPresent(t, parentId) || !HasFolder(t, id))
  {
    var r := Update(t, id, name, parentId).0;
    if IsBlank(name) || parentId == Some(id) {
      assert r == Failure(Invalid);
    } else if !ParentPresent(t, parentId) || !HasFolder(t, id) {
      assert r == Failure(NotFound);
    } else {
      assert r != Failure(NotFound);
    }
  }

  /**
   * On a valid table, Update answers Conflict exactly when every earlier check
   * passes and a different folder already has the trimmed name under the new
   * parent.
   */
  lemma UpdateConflict(t: FolderTable, id: int, name: string, parentId: Option<int>)
    requires FolderTableValid(t)
    ensures Update(t, id, name, parentId).0 == Failure(Conflict) <==>
      && !IsBlank(name) && parentId != Some(id) && ParentPresent(t, parentId) && HasFolder(t, id)
      && HasOtherSibling(t, TrimSpace(name), parentId, id)
  {
    var r := Update(t, id, name, parentId).0;
    if IsBlank(name) || parentId == Some(id) {
      assert r == Failure(Invalid);
    } else if !ParentPresent(t, parentId) || !HasFolder(t, id) {
      assert r == Failure(NotFound);
    } else {
      var existing := FindFolderByName(t, TrimSpace(name), parentId);
      if existing.Some? && existing.value.id != id {
        assert r == Failure(Conflict);
      } else {
        NoOtherSiblingWhenFirstMatchIsSelf(t, id, TrimSpace(name), parentId);
        assert r.Success?;
      }
    }
  }

  /** On a valid table the name lookup finds the only folder holding that name under that parent. */
  lemma NoOtherSiblingWhenFirstMatchIsSelf(t: FolderTable, id: int, name: string, parentId: Option<int>)
    requires FolderTableValid(t) ==> (FindFolderByName(t, name, parentId).None? || FindFolderByName(t, name, parentId).value.id == id)
    ensures FolderTableValid(t) ==> !HasOtherSibling(t, name, parentId, id)
  {
  }

  /** Renaming or moving a folder keeps the table valid when no other sibling holds the new name. */
  lemma ReplaceKeepsValid(t: FolderTable, id: int, name: string, parentId: Option<int>)
    requires FolderTableValid(t) ==> !HasOtherSibling(t, name, parentId, id)
    ensures FolderTableValid(t) ==> FolderTableValid(ReplaceFolder(t, id, name, parentId))
  {
    var r := ReplaceFolder(t, id, name, parentId);
    if FolderTableValid(t) {
      forall i, j | 0 <= i < j < |r.rows|
        ensures !(r.rows[i].name == r.rows[j].name && r.rows[i].parentId == r.rows[j].parentId)
      {
        if t.rows[i].id == id {
          assert t.rows[j].id != id;
        } else if t.rows[j].id == id {
          assert t.rows[i].id != id;
        }
      }
    }
  }

  /** folderService.Delete: NotFound for a missing key, otherwise exactly that folder is removed. */
  function Delete(t: FolderTable, id: int): (r: (Option<ServiceError>, FolderTable))
    ensures r.0 == Some(NotFound) <==> !HasFolder(t, id)
    ensures r.0.None? <==> HasFolder(t, id)
    ensures r.0.Some? ==> r.1 == t
    ensures r.0.None? ==> forall f :: f in r.1.rows <==> f in t.rows && f.id != id
    ensures r.1.nextId == t.nextId
  {
    if FolderById(t, id).None? then (Some(NotFound), t)
    else (None, RemoveFolder(t, id))
  }

  /** Creating the same name twice under the same parent: the second call is a conflict. */
  lemma CreateTwiceConflicts(t: FolderTable, name: string, parentId: Option<int>)
    requires Create(t, name, parentId).0.Success?
    ensures Create(Create(t, name, parentId).1, name, parentId).0 == Failure(Conflict)
  {
    var (res, t') := Create(t, name, parentId);
    CreateErrors(t, name, parentId);
    CreateErrors(t', name, parentId);
    assert t'.rows[|t.rows|] == res.value;
    if parentId.Some? {
      var k :| 0 <= k < |t.rows| && t.rows[k].id == parentId.value;
      assert t'.rows[k] == t.rows[k];
    }
  }

  /** A folder may be "updated" to its current name and parent: a match with its own key is no conflict. */
  lemma UpdateKeepsOwnName(t: FolderTable, f: Folder)
    requires FolderTableValid(t)
    requires f in t.rows && !IsBlank(f.name) && Trimmed(f.name)
    requires f.parentId != Some(f.id) && ParentPresent(t, f.parentId)
    ensures Update(t, f.id, f.name, f.parentId).0 == Success(f)
  {
    TrimSpaceOfTrimmed(f.name);
    var k :| 0 <= k < |t.rows| && t.rows[k] == f;
    assert HasFolder(t, f.id);
    if HasOtherSibling(t, f.name, f.parentId, f.id) {
      var i :| 0 <= i < |t.rows| && t.rows[i].name == f.name && t.rows[i].parentId == f.parentId && t.rows[i].id != f.id;
    }
  }

  /**
   * Update rejects only direct self-parenting: moving folder 1 under its own
   * child 2 succeeds and leaves the two folders each other's parent.
   */
  lemma UpdateAllowsCycle()
    ensures
      var t := FolderTable([Folder(1, "a", None), Folder(2, "b", Some(1))], 3);
      var r := Update(t, 1, "a", Some(2));
      && r.0.Success?
      && r.1.rows[0].parentId == Some(2)
      && r.1.rows[1].parentId == Some(1)
  {
    var t := FolderTable([Folder(1, "a", None), Folder(2, "b", Some(1))], 3);
    TrimSpaceOfTrimmed("a");
    assert HasFolder(t, 2) by { assert t.rows[1].id == 2; }
    assert HasFolder(t, 1) by { assert t.rows[0].id == 1; }
  }
}
