/** The category table's data access: owner-scoped listing, lookup, create,
    rename and delete, with the foreign-key actions a delete sets off
    (transactions lose their category, budgets of the category go). */
module Categories {
  import opened Basics
  import opened Seqs
  import opened Sorting
  import opened Schema

  /** A type filter applies only when given and non-empty (JavaScript
      truthiness). */
  predicate TypeFilterActive(kind: Option<string>)
  {
    kind.Some? && kind.value != ""
  }

  /** WHERE user_id = user [AND type = kind]. */
  function OwnedOfType(user: nat, kind: Option<string>): Category -> bool
  {
    (c: Category) => c.owner == user && (TypeFilterActive(kind) ==> c.kind == kind.value)
  }

  /** WHERE id = id AND user_id = user. */
  function IdAndOwner(id: nat, user: nat): Category -> bool
  {
    (c: Category) => c.id == id && c.owner == user
  }

  function NameKey(c: Category): seq<int>
  {
    TextKey(c.name)
  }

  /** Category.getByUser: the user's categories, narrowed to one type when a
      type is given, in ascending name order. */
  function GetByUser(s: Store, user: nat, kind: Option<string>): (r: seq<Category>)
    ensures forall i :: 0 <= i < |r| ==> r[i] in s.categories && r[i].owner == user
    ensures TypeFilterActive(kind) ==> forall i :: 0 <= i < |r| ==> r[i].kind == kind.value
    ensures forall i :: 0 <= i < |s.categories| && s.categories[i].owner == user
              && (TypeFilterActive(kind) ==> s.categories[i].kind == kind.value)
              ==> s.categories[i] in r
    ensures multiset(r) == multiset(Filter(s.categories, OwnedOfType(user, kind)))
    ensures SortedBy(r, NameKey)
  {
    var selected := Filter(s.categories, OwnedOfType(user, kind));
    var r := SortBy(selected, NameKey);
    PermutationLength(r, selected);
    PermutationLength(selected, r);
    r
  }

  /** Category.getById: the row with this id, only if the user owns it. */
  function GetById(s: Store, id: nat, user: nat): (r: Option<Category>)
    ensures r.Some? ==> r.value in s.categories && r.value.id == id && r.value.owner == user
    ensures r.None? <==> forall i :: 0 <= i < |s.categories| ==>
              !(s.categories[i].id == id && s.categories[i].owner == user)
  {
    FindFirst(s.categories, IdAndOwner(id, user))
  }

  /** Another category than `id` already holds (name, user, kind). */
  predicate KeyTaken(cats: seq<Category>, name: string, user: nat, kind: string, exceptId: Option<nat>)
  {
    exists i :: 0 <= i < |cats| && CategoryKey(cats[i]) == (name, user, kind)
      && (exceptId.Some? ==> cats[i].id != exceptId.value)
  }

  /** Category.create: INSERT (name, type, user_id) RETURNING *. The name
      is stored as its VARCHAR column keeps it, and the CHECK and UNIQUE
      constraints see the stored values. */
  function Create(s: Store, name: string, kind: string, user: nat): (r: Result<Written<Category>, DbError>)
    ensures r.Ok? <==> && FitsVarchar(name, NameLength) && IsEntryType(kind)
                       && !KeyTaken(s.categories, Varchar(name, NameLength), user, kind, None)
    ensures r.Ok? ==>
              && r.value.row == Category(s.nextCategoryId, Varchar(name, NameLength), kind, user)
              && r.value.store == s.(categories := s.categories + [r.value.row],
                                     nextCategoryId := s.nextCategoryId + 1)
    ensures r == Err(ValueTooLong) <==> !FitsVarchar(name, NameLength) || !FitsVarchar(kind, TypeLength)
    ensures r == Err(UniqueViolation) <==>
              && FitsVarchar(name, NameLength) && IsEntryType(kind)
              && KeyTaken(s.categories, Varchar(name, NameLength), user, kind, None)
    ensures r == Err(CheckViolation) <==>
              FitsVarchar(name, NameLength) && FitsVarchar(kind, TypeLength) && !IsEntryType(kind)
  {
    if !FitsVarchar(name, NameLength) || !FitsVarchar(kind, TypeLength) then Err(ValueTooLong)
    else
      var name', kind' := Varchar(name, NameLength), Varchar(kind, TypeLength);
      StoredTypeCheck(kind);
      if !IsEntryType(kind') then Err(CheckViolation)
      else if KeyTaken(s.categories, name', user, kind', None) then Err(UniqueViolation)
      else
        var c := Category(s.nextCategoryId, name', kind', user);
        Ok(Written(s.(categories := s.categories + [c], nextCategoryId := s.nextCategoryId + 1), c))
  }

  /** Category.update: SET name WHERE id AND user_id RETURNING *. Only the
      name changes; no matching row means no effect and no row. The width
      coercion of the bound name is folded when the statement is planned,
      so a name that does not fit fails even if no row matches. */
  function Update(s: Store, id: nat, name: string, user: nat): (r: Result<Written<Option<Category>>, DbError>)
    ensures r == Err(ValueTooLong) <==> !FitsVarchar(name, NameLength)
    ensures FitsVarchar(name, NameLength) && GetById(s, id, user).None? ==> r == Ok(Written(s, None))
    ensures r.Ok? <==> && FitsVarchar(name, NameLength)
                       && (|| GetById(s, id, user).None?
                           || !KeyTaken(s.categories, Varchar(name, NameLength), user,
                                        GetById(s, id, user).value.kind, Some(id)))
    ensures r.Ok? ==> (r.value.row.Some? <==> GetById(s, id, user).Some?)
    ensures r.Ok? && r.value.row.Some? ==>
              var before := GetById(s, id, user).value;
              r.value.row.value == Category(before.id, Varchar(name, NameLength), before.kind, before.owner)
    ensures r.Ok? ==>
              var cats' := r.value.store.categories;
              && |cats'| == |s.categories|
              && (forall i :: 0 <= i < |cats'| ==>
                    && cats'[i].id == s.categories[i].id
                    && cats'[i].kind == s.categories[i].kind
                    && cats'[i].owner == s.categories[i].owner
                    && cats'[i].name == (if IdAndOwner(id, user)(s.categories[i])
                                         then Varchar(name, NameLength) else s.categories[i].name))
              && r.value.store == s.(categories := cats')
    ensures r == Err(UniqueViolation) <==>
              && GetById(s, id, user).Some? && FitsVarchar(name, NameLength)
              && KeyTaken(s.categories, Varchar(name, NameLength), user, GetById(s, id, user).value.kind, Some(id))
  {
    var target := GetById(s, id, user);
    if !FitsVarchar(name, NameLength) then Err(ValueTooLong)
    else if target.None? then Ok(Written(s, None))
    else
      var name' := Varchar(name, NameLength);
      if KeyTaken(s.categories, name', user, target.value.kind, Some(id)) then Err(UniqueViolation)
      else
        var cats' := seq(|s.categories|, i requires 0 <= i < |s.categories| =>
                       if IdAndOwner(id, user)(s.categories[i]) then s.categories[i].(name := name')
                       else s.categories[i]);
        Ok(Written(s.(categories := cats'), Some(target.value.(name := name'))))
  }

  /** Spaces past the name column's width are cut off: a full-width name
      followed by a space is created as the name itself. */
  lemma ExcessSpacesIgnored(s: Store, name: string, kind: string, user: nat)
    requires |name| == NameLength
    ensures Create(s, name + " ", kind, user) == Create(s, name, kind, user)
  {
    assert (name + " ")[..NameLength] == name;
  }

  /** ON DELETE SET NULL on transactions.category_id. */
  function DetachCategory(txs: seq<Transaction>, id: nat): (r: seq<Transaction>)
    ensures |r| == |txs|
    ensures forall i :: 0 <= i < |r| ==>
              r[i] == if txs[i].categoryId == Some(id) then txs[i].(categoryId := None) else txs[i]
  {
    seq(|txs|, i requires 0 <= i < |txs| =>
      if txs[i].categoryId == Some(id) then txs[i].(categoryId := None) else txs[i])
  }

  function NotIdAndOwner(id: nat, user: nat): Category -> bool
  {
    (c: Category) => !(c.id == id && c.owner == user)
  }

  function NotInCategory(id: nat): Budget -> bool
  {
    (b: Budget) => b.categoryId != Some(id)
  }

  /** Category.delete: DELETE WHERE id AND user_id, then the foreign-key
      actions of the deleted row. Always reports success. */
  function Delete(s: Store, id: nat, user: nat): (r: Written<bool>)
    ensures r.row
    ensures GetById(r.store, id, user).None?
    ensures GetById(s, id, user).None? ==> r.store == s
    ensures forall i :: 0 <= i < |s.categories| ==>
              (s.categories[i] in r.store.categories <==> !IdAndOwner(id, user)(s.categories[i]))
    ensures forall i :: 0 <= i < |r.store.categories| ==> r.store.categories[i] in s.categories
    ensures GetById(s, id, user).Some? ==>
              && r.store.transactions == DetachCategory(s.transactions, id)
              && (forall i :: 0 <= i < |s.budgets| ==>
                    (s.budgets[i] in r.store.budgets <==> s.budgets[i].categoryId != Some(id)))
              && (forall i :: 0 <= i < |r.store.budgets| ==> r.store.budgets[i] in s.budgets)
    ensures r.store.nextCategoryId == s.nextCategoryId
         && r.store.nextTransactionId == s.nextTransactionId
         && r.store.nextBudgetId == s.nextBudgetId
  {
    if GetById(s, id, user).None? then Written(s, true)
    else
      Written(s.(categories := Filter(s.categories, NotIdAndOwner(id, user)),
                 transactions := DetachCategory(s.transactions, id),
                 budgets := Filter(s.budgets, NotInCategory(id))),
              true)
  }

  /** A repeated delete is a no-op. */
  lemma DeleteIdempotent(s: Store, id: nat, user: nat)
    ensures Delete(Delete(s, id, user).store, id, user) == Delete(s, id, user)
  {
  }

  // ---------------------------------------------------------------------
  // The schema constraints survive every category statement.

  lemma CreateKeepsValid(s: Store, name: string, kind: string, user: nat)
    requires Valid(s) && Create(s, name, kind, user).Ok?
    ensures Valid(Create(s, name, kind, user).value.store)
  {
    var w := Create(s, name, kind, user).value;
    var c := w.row;
    assert forall i :: 0 <= i < |s.categories| ==> CategoryKey(s.categories[i]) != CategoryKey(c);
    KeysDistinctAppend(s.categories, c, CategoryIdOf);
    KeysDistinctAppend(s.categories, c, CategoryKey);
    forall id | HasCategory(s.categories, id) ensures HasCategory(w.store.categories, id) {
      HasCategoryAppend(s.categories, [c], id);
    }
  }

  /** Renaming keeps every primary key in place, so every reference that
      resolved before still resolves. */
  lemma RenamedKeepsReferences(cats: seq<Category>, cats': seq<Category>, id: nat)
    requires |cats'| == |cats|
    requires forall i :: 0 <= i < |cats| ==> cats'[i].id == cats[i].id
    ensures HasCategory(cats', id) <==> HasCategory(cats, id)
  {
    if HasCategory(cats, id) {
      var i :| 0 <= i < |cats| && cats[i].id == id;
      assert cats'[i].id == id;
    }
    if HasCategory(cats', id) {
      var i :| 0 <= i < |cats'| && cats'[i].id == id;
      assert cats[i].id == id;
    }
  }

  /** Renaming one row to a key no other row holds keeps the keys distinct. */
  lemma RenamedKeysDistinct(cats: seq<Category>, cats': seq<Category>, t: nat, name: string)
    requires KeysDistinct(cats, CategoryKey)
    requires |cats'| == |cats| && t < |cats| && cats'[t] == cats[t].(name := name)
    requires forall i :: 0 <= i < |cats| && i != t ==> cats'[i] == cats[i]
    requires forall i :: 0 <= i < |cats| && i != t ==> CategoryKey(cats[i]) != CategoryKey(cats'[t])
    ensures KeysDistinct(cats', CategoryKey)
  {
    forall i, j | 0 <= i < j < |cats'| ensures CategoryKey(cats'[i]) != CategoryKey(cats'[j]) {
      if i != t && j != t {
        assert CategoryKey(cats[i]) != CategoryKey(cats[j]);
      }
    }
  }

  /** Changing names only, to names that fit and keep the UNIQUE key,
      keeps the store valid. */
  lemma RenamedKeepsValid(s: Store, cats': seq<Category>)
    requires Valid(s) && |cats'| == |s.categories|
    requires forall i :: 0 <= i < |cats'| ==>
               && cats'[i].id == s.categories[i].id
               && cats'[i].kind == s.categories[i].kind
               && |cats'[i].name| <= NameLength
    requires KeysDistinct(cats', CategoryKey)
    ensures Valid(s.(categories := cats'))
  {
    var cats := s.categories;
    forall i, j | 0 <= i < j < |cats'| ensures CategoryIdOf(cats'[i]) != CategoryIdOf(cats'[j]) {
      assert CategoryIdOf(cats[i]) != CategoryIdOf(cats[j]);
    }
    forall c | HasCategory(cats, c) ensures HasCategory(cats', c) {
      RenamedKeepsReferences(cats, cats', c);
    }
  }

  /** Renaming the user's category `id` to a name no other category of the
      user and type holds keeps the store valid. */
  lemma RenameKeepsValid(s: Store, id: nat, name: string, user: nat, cats': seq<Category>)
    requires Valid(s) && GetById(s, id, user).Some? && |name| <= NameLength
    requires !KeyTaken(s.categories, name, user, GetById(s, id, user).value.kind, Some(id))
    requires |cats'| == |s.categories|
    requires forall i :: 0 <= i < |cats'| ==>
               && cats'[i].id == s.categories[i].id
               && cats'[i].kind == s.categories[i].kind
               && cats'[i].owner == s.categories[i].owner
               && cats'[i].name == (if IdAndOwner(id, user)(s.categories[i]) then name else s.categories[i].name)
    ensures Valid(s.(categories := cats'))
  {
    var cats := s.categories;
    var t :| 0 <= t < |cats| && cats[t] == GetById(s, id, user).value;
    assert forall i :: 0 <= i < |cats| && i != t ==> CategoryIdOf(cats[i]) != CategoryIdOf(cats[t]);
    assert forall i :: 0 <= i < |cats| && i != t ==> cats'[i] == cats[i];
    RenamedKeysDistinct(cats, cats', t, name);
    RenamedKeepsValid(s, cats');
  }

  lemma UpdateKeepsValid(s: Store, id: nat, name: string, user: nat)
    requires Valid(s) && Update(s, id, name, user).Ok?
    ensures Valid(Update(s, id, name, user).value.store)
  {
    if GetById(s, id, user).Some? {
      RenameKeepsValid(s, id, Varchar(name, NameLength), user, Update(s, id, name, user).value.store.categories);
    }
  }

  lemma DeleteKeepsValid(s: Store, id: nat, user: nat)
    requires Valid(s)
    ensures Valid(Delete(s, id, user).store)
  {
    if GetById(s, id, user).Some? {
      var s' := Delete(s, id, user).store;
      FilterKeysDistinct(s.categories, NotIdAndOwner(id, user), CategoryIdOf);
      FilterKeysDistinct(s.categories, NotIdAndOwner(id, user), CategoryKey);
      FilterKeysDistinct(s.budgets, NotInCategory(id), BudgetIdOf);
      FilterKeysDistinct(s.budgets, NotInCategory(id), BudgetKey);
      forall c | HasCategory(s.categories, c) && c != id
        ensures HasCategory(s'.categories, c)
      {
        var j :| 0 <= j < |s.categories| && s.categories[j].id == c;
        assert s.categories[j] in s'.categories;
      }
      assert KeysDistinct(s'.transactions, TransactionIdOf) by {
        forall i, j | 0 <= i < j < |s'.transactions|
          ensures s'.transactions[i].id != s'.transactions[j].id
        {
          assert s'.transactions[i].id == s.transactions[i].id;
          assert s'.transactions[j].id == s.transactions[j].id;
        }
      }
    }
  }
}
