/** The category handlers: listing a restaurant's categories, creation, and the
    owner-or-admin checked partial update and cascading delete. */
module CategoryController {
  import opened Wrappers
  import opened UserEntity
  import opened Schema
  import opened Store
  import opened Http
  import opened Variants

  /** A dish as `formatDishReturn` presents it. That function is not part of this model; the
      fields follow the `DishReturn` shape of the dish controller. */
  datatype DishView = DishView(id: int, description: string, image: Option<string>, price: int)

  /** `CategoryReturn` */
  datatype CategoryView = CategoryView(id: int, name: string, dishes: seq<DishView>)

  datatype CategoryBody = OneCategory(view: CategoryView) | CategoryList(views: seq<CategoryView>)

  function FormatDish(d: Row<Dish>): DishView
  {
    DishView(d.id, d.val.description, d.val.image, d.val.price)
  }

  predicate SortedByDate(ds: seq<Row<Dish>>)
  {
    forall i, j :: 0 <= i < j < |ds| ==> ds[i].val.createdAt <= ds[j].val.createdAt
  }

  /** Places `d` before the first dish created no earlier than it. */
  function InsertByDate(d: Row<Dish>, ds: seq<Row<Dish>>): (r: seq<Row<Dish>>)
    ensures multiset(r) == multiset(ds) + multiset{d}
  {
    if |ds| == 0 then [d]
    else if d.val.createdAt <= ds[0].val.createdAt then [d] + ds
    else
      assert ds == [ds[0]] + ds[1..];
      [ds[0]] + InsertByDate(d, ds[1..])
  }

  /** Inserting into a list sorted by creation time keeps it sorted. */
  lemma {:induction false} InsertKeepsSorted(d: Row<Dish>, ds: seq<Row<Dish>>)
    requires SortedByDate(ds)
    ensures SortedByDate(InsertByDate(d, ds))
  {
    if |ds| == 0 {
    } else if d.val.createdAt <= ds[0].val.createdAt {
      SortedCons(d, ds);
    } else {
      var rest := InsertByDate(d, ds[1..]);
      InsertKeepsSorted(d, ds[1..]);
      forall x | x in rest
        ensures ds[0].val.createdAt <= x.val.createdAt
      {
        assert x in multiset(rest);
        if x != d {
          assert x in multiset(ds[1..]);
          var m :| 0 <= m < |ds[1..]| && ds[1..][m] == x;
          assert ds[m + 1] == x;
        }
      }
      SortedCons(ds[0], rest);
    }
  }

  /** A dish created no later than every dish of a sorted list can go in front of it. */
  lemma SortedCons(d: Row<Dish>, rest: seq<Row<Dish>>)
    requires SortedByDate(rest)
    requires forall x :: x in rest ==> d.val.createdAt <= x.val.createdAt
    ensures SortedByDate([d] + rest)
  {
    assert forall i :: 0 <= i < |rest| ==> rest[i] in rest;
  }

  /** `dishes.sort((a, b) => a.createdAt - b.createdAt)`: a sort by creation time. */
  function SortByDate(ds: seq<Row<Dish>>): (r: seq<Row<Dish>>)
    ensures multiset(r) == multiset(ds)
    ensures SortedByDate(r)
  {
    if |ds| == 0 then []
    else
      assert ds == [ds[0]] + ds[1..];
      InsertKeepsSorted(ds[0], SortByDate(ds[1..]));
      InsertByDate(ds[0], SortByDate(ds[1..]))
  }

  /** `formatCategoryReturn`: the dishes, when the relation was loaded, in ascending creation time;
      otherwise an empty list. */
  function FormatCategory(c: Row<Category>, dishes: Option<seq<Row<Dish>>>): (v: CategoryView)
    ensures v.id == c.id && v.name == c.val.name
    ensures dishes.None? ==> v.dishes == []
    ensures dishes.Some? ==> |v.dishes| == |dishes.value|
  {
    var listed := match dishes case Some(ds) => SortByDate(ds) case None => [];
    assert dishes.Some? ==> |listed| == |multiset(listed)| == |multiset(dishes.value)| == |dishes.value|;
    CategoryView(c.id, c.val.name, seq(|listed|, i requires 0 <= i < |listed| => FormatDish(listed[i])))
  }

  /** Formatting lists the dishes in ascending creation time, each dish once: the listed dishes
      are a permutation of the loaded ones. */
  lemma FormatCategoryOrdersDishes(c: Row<Category>, dishes: seq<Row<Dish>>)
    ensures var v := FormatCategory(c, Some(dishes));
      exists sorted :: && multiset(sorted) == multiset(dishes)
                       && SortedByDate(sorted)
                       && |v.dishes| == |sorted|
                       && forall i :: 0 <= i < |sorted| ==> v.dishes[i] == FormatDish(sorted[i])
  {
    var sorted := SortByDate(dishes);
    assert |sorted| == |multiset(sorted)| == |dishes|;
  }

  /** The owner of the category's restaurant, when the restaurant and its owner both load. */
  function OwnerOf(s: Store, c: Category): (r: Option<int>)
    ensures r.Some? ==> c.restaurant.Some? && c.restaurant.value in s.restaurants.rows
    ensures r.Some? ==> s.restaurants.rows[c.restaurant.value].owner == r && r.value in s.users.rows
  {
    match Resolve(s.restaurants, c.restaurant)
    case None => None
    case Some(restaurant) =>
      match Resolve(s.users, restaurant.val.owner)
      case None => None
      case Some(owner) => Some(owner.id)
  }

  /** The decision `user.type === ADMIN || user.id === category.restaurant.owner.id`. `Broken` is
      the TypeError of reading through a missing user, restaurant or owner; the `||` short-circuits,
      so an ADMIN is never affected by a missing owner. */
  datatype Access = Granted | Denied | Broken

  function Authorize(s: Store, user: Option<Row<User>>, c: Category): (a: Access)
    ensures a == Granted <==> user.Some? && (user.value.val.userType == Admin || OwnerOf(s, c) == Some(user.value.id))
    ensures a == Denied <==>
      user.Some? && user.value.val.userType != Admin && OwnerOf(s, c).Some? && OwnerOf(s, c) != Some(user.value.id)
    ensures a == Broken <==> user.None? || (user.value.val.userType != Admin && OwnerOf(s, c).None?)
  {
    match user
    case None => Broken
    case Some(u) =>
      if u.val.userType == Admin then Granted
      else
        match OwnerOf(s, c)
        case None => Broken
        case Some(owner) => if u.id == owner then Granted else Denied
  }

  /** The categories of restaurant `rid`, in key order. */
  function CategoriesOf(s: Store, rid: int): (cs: seq<Row<Category>>)
    ensures forall c :: c in cs <==> c.id in s.categories.rows && c.val == s.categories.rows[c.id] && c.val.restaurant == Some(rid)
    ensures AscendingIds(cs)
  {
    Where(s.categories, OfRestaurant(rid))
  }

  /** The condition the `categories` relation puts on a category: it belongs to restaurant `rid`. */
  function OfRestaurant(rid: int): Row<Category> -> bool
  {
    (c: Row<Category>) => c.val.restaurant == Some(rid)
  }

  /** `get`: 404 for an unknown restaurant; otherwise every category of it, in order, each with
      an empty dish list because the dishes relation is not loaded. Nothing is written. */
  function Get(s: Store, ctx: Ctx, restaurantId: int): (r: Outcome<CategoryBody>)
    ensures r.store == s
    ensures r.reply.status in {Ok, NotFound}
    ensures r.reply.status == NotFound <==> restaurantId !in s.restaurants.rows
    ensures r.reply.status == Ok ==>
      var cs := CategoriesOf(s, restaurantId);
      && r.reply.body.Some? && r.reply.body.value.CategoryList?
      && |r.reply.body.value.views| == |cs|
      && forall i :: 0 <= i < |cs| ==> r.reply.body.value.views[i] == CategoryView(cs[i].id, cs[i].val.name, [])
  {
    match Find(s.restaurants, restaurantId)
    case None => Send(NotFound, ctx, s)
    case Some(_) =>
      var cs := CategoriesOf(s, restaurantId);
      Json(Ok, CategoryList(seq(|cs|, i requires 0 <= i < |cs| => FormatCategory(cs[i], None))), ctx, s)
  }

  /** `create`: an unknown restaurant, or a missing name (the column is NOT NULL), answers 404 and
      saves nothing; otherwise one category with that name, attached to that restaurant, is saved
      under the next key. */
  function Create(s: Store, ctx: Ctx, name: Option<string>, restaurantId: int): (r: Outcome<CategoryBody>)
    ensures r.reply.status in {Ok, NotFound}
    ensures r.reply.status == Ok <==> restaurantId in s.restaurants.rows && name.Some?
    ensures r.reply.status == NotFound ==> r.store == s
    ensures r.reply.status == Ok ==>
      var id := s.categories.next;
      && id !in s.categories.rows
      && r.store == s.(categories := r.store.categories)
      && r.store.categories.rows == s.categories.rows[id := Category(name.value, Some(restaurantId))]
      && r.reply.body == Some(OneCategory(CategoryView(id, name.value, [])))
  {
    match Find(s.restaurants, restaurantId)
    case None => Send(NotFound, ctx, s)
    case Some(restaurant) =>
      match name
      case None => Send(NotFound, ctx, s)
      case Some(n) =>
        var id := s.categories.next;
        var category := Category(n, Some(restaurant.id));
        Json(Ok, OneCategory(FormatCategory(Row(id, category), None)), ctx,
             s.(categories := Insert(s.categories, category)))
  }

  /** `update`: permitted iff the session user is an ADMIN or owns the category's restaurant.
      Then only the name changes, and only when one is given; anyone else gets 403 and nothing
      is written; an unknown category, or a failed read through the relations, answers 404. */
  function Update(s: Store, ctx: Ctx, id: int, name: Option<string>): (r: Outcome<CategoryBody>)
    ensures r.reply.status in {Ok, Forbidden, NotFound}
    ensures id !in s.categories.rows ==> r.reply.status == NotFound
    ensures id in s.categories.rows ==>
      && (r.reply.status == Ok <==> Authorize(s, ctx.user, s.categories.rows[id]) == Granted)
      && (r.reply.status == Forbidden <==> Authorize(s, ctx.user, s.categories.rows[id]) == Denied)
    ensures r.reply.status != Ok ==> r.store == s && r.reply.body.None?
    ensures r.reply.status == Ok ==>
      var old_ := s.categories.rows[id];
      var newName := if name.Some? then name.value else old_.name;
      && r.store == s.(categories := r.store.categories)
      && r.store.categories.next == s.categories.next
      && r.store.categories.rows == s.categories.rows[id := old_.(name := newName)]
      && r.store.categories.rows[id].restaurant == old_.restaurant
      && r.reply.body == Some(OneCategory(CategoryView(id, newName, [])))
  {
    match Find(s.categories, id)
    case None => Send(NotFound, ctx, s)
    case Some(category) =>
      match Authorize(s, ctx.user, category.val)
      case Broken => Send(NotFound, ctx, s)
      case Denied => Send(Forbidden, ctx, s)
      case Granted =>
        var renamed := category.val.(name := if name.None? then category.val.name else name.value);
        Json(Ok, OneCategory(FormatCategory(Row(id, renamed), None)), ctx,
             s.(categories := Put(s.categories, id, renamed)))
  }

  /** The dishes of category `id`, in key order. */
  function DishesOf(s: Store, id: int): (ds: seq<Row<Dish>>)
    ensures forall d :: d in ds <==> d.id in s.dishes.rows && d.val == s.dishes.rows[d.id] && d.val.category == Some(id)
  {
    Where(s.dishes, (d: Row<Dish>) => d.val.category == Some(id))
  }

  /** Deletes the listed dishes one after the other. */
  function DeleteEach(t: Table<Dish>, ds: seq<Row<Dish>>): (r: Table<Dish>)
    decreases |ds|
    ensures r.next == t.next
    ensures r.rows.Keys == t.rows.Keys - (set d | d in ds :: d.id)
    ensures forall k :: k in r.rows ==> r.rows[k] == t.rows[k]
  {
    if |ds| == 0 then t
    else
      var rest := DeleteEach(Delete(t, ds[0].id), ds[1..]);
      assert (set d | d in ds :: d.id) == {ds[0].id} + (set d | d in ds[1..] :: d.id) by {
        assert ds == [ds[0]] + ds[1..];
      }
      rest
  }

  /** The category's dishes, loaded with it through the `dishes` relation. As written that relation
      names an inverse side, `Dish.category`, which the dish entity does not declare, so the join
      cannot be built and the whole query throws; corrected, the dishes linking to the category load. */
  function LoadDishes(v: Variant, s: Store, id: int): Option<seq<Row<Dish>>>
  {
    match v
    case AsWritten => None
    case Corrected => Some(DishesOf(s, id))
  }

  /** `del`. As written, loading the category with its dishes always throws, so every request
      answers 404 and nothing is deleted. Corrected, it is permitted to exactly the same users as
      `update`; then every dish of the category is deleted, then the category itself, and no other
      row changes; anyone else gets 403 and nothing is deleted; an unknown category, or a failed
      read through the relations, answers 404. */
  function Del(v: Variant, s: Store, ctx: Ctx, id: int): (r: Outcome<CategoryBody>)
    ensures r.reply.status in {Ok, Forbidden, NotFound}
    ensures r.reply.body.None?
    ensures id !in s.categories.rows ==> r.reply.status == NotFound
    ensures v == AsWritten ==> r.reply.status == NotFound
    ensures v == Corrected && id in s.categories.rows ==>
      && (r.reply.status == Ok <==> Authorize(s, ctx.user, s.categories.rows[id]) == Granted)
      && (r.reply.status == Forbidden <==> Authorize(s, ctx.user, s.categories.rows[id]) == Denied)
    ensures r.reply.status != Ok ==> r.store == s
    ensures r.reply.status == Ok ==>
      && r.store == s.(dishes := r.store.dishes, categories := r.store.categories)
      && r.store.categories.rows == s.categories.rows - {id}
      && r.store.categories.next == s.categories.next
      && r.store.dishes.next == s.dishes.next
      && (forall k :: k in r.store.dishes.rows <==> k in s.dishes.rows && s.dishes.rows[k].category != Some(id))
      && (forall k :: k in r.store.dishes.rows ==> r.store.dishes.rows[k] == s.dishes.rows[k])
  {
    match Find(s.categories, id)
    case None => Send(NotFound, ctx, s)
    case Some(category) =>
      match LoadDishes(v, s, id)
      case None => Send(NotFound, ctx, s)
      case Some(dishes) =>
        match Authorize(s, ctx.user, category.val)
        case Broken => Send(NotFound, ctx, s)
        case Denied => Send(Forbidden, ctx, s)
        case Granted =>
          assert forall k :: k in (set d | d in dishes :: d.id) <==> k in s.dishes.rows && s.dishes.rows[k].category == Some(id) by {
            forall k | k in s.dishes.rows && s.dishes.rows[k].category == Some(id)
              ensures k in (set d | d in dishes :: d.id)
            {
              assert Row(k, s.dishes.rows[k]) in dishes;
            }
          }
          var s' := s.(dishes := DeleteEach(s.dishes, dishes), categories := Delete(s.categories, id));
          Send(Ok, ctx, s')
  }

  /** After a successful delete no dish refers to the deleted category. */
  lemma DelLeavesNoOrphans(v: Variant, s: Store, ctx: Ctx, id: int)
    ensures var r := Del(v, s, ctx, id);
      r.reply.status == Ok ==>
        id !in r.store.categories.rows &&
        forall k :: k in r.store.dishes.rows ==> r.store.dishes.rows[k].category != Some(id)
  {
  }

  /** As written, not even an ADMIN can delete a category: where the corrected handler deletes it,
      the handler as written answers 404 and leaves the store as it was. */
  lemma AdminCannotDeleteAsWritten(s: Store, ctx: Ctx, id: int)
    requires id in s.categories.rows
    requires ctx.user.Some? && ctx.user.value.val.userType == Admin
    ensures Del(Corrected, s, ctx, id).reply.status == Ok
    ensures Del(Corrected, s, ctx, id).store.categories.rows == s.categories.rows - {id}
    ensures Del(AsWritten, s, ctx, id).reply.status == NotFound
    ensures Del(AsWritten, s, ctx, id).store == s
  {
  }

  /** A category created for a restaurant is listed last among that restaurant's categories, after
      the ones listed before, with no dishes. */
  lemma CreatedCategoryListedLast(s: Store, ctx: Ctx, name: string, restaurantId: int)
    requires restaurantId in s.restaurants.rows
    ensures var s' := Create(s, ctx, Some(name), restaurantId).store;
      && Get(s', ctx, restaurantId).reply.status == Ok
      && Get(s', ctx, restaurantId).reply.body.value.views
         == Get(s, ctx, restaurantId).reply.body.value.views + [CategoryView(s.categories.next, name, [])]
  {
    var s' := Create(s, ctx, Some(name), restaurantId).store;
    var category := Category(name, Some(restaurantId));
    assert s'.categories == Insert(s.categories, category);
    WhereInsert(s.categories, category, OfRestaurant(restaurantId));
    var before := CategoriesOf(s, restaurantId);
    var after := CategoriesOf(s', restaurantId);
    assert after == before + [Row(s.categories.next, category)];
    var old_ := Get(s, ctx, restaurantId).reply.body.value.views;
    var new_ := Get(s', ctx, restaurantId).reply.body.value.views;
    assert |new_| == |old_| + 1;
    forall i | 0 <= i < |new_|
      ensures new_[i] == (old_ + [CategoryView(s.categories.next, name, [])])[i]
    {
      if i < |old_| {
        assert after[i] == before[i];
      }
    }
  }
}
