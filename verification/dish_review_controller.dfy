/** The dish review handlers: the review format with the author's display name, listing a
    dish's reviews, and creating a review. */
module DishReviewController {
  import opened Wrappers
  import opened UserEntity
  import opened Schema
  import opened Store
  import opened Http

  /** `DishReviewReturn` */
  datatype ReviewView = ReviewView(id: int, note: int, text: string, username: string, createdAt: int)

  datatype ReviewBody = OneReview(view: ReviewView) | ReviewList(views: seq<ReviewView>)

  /** `formatDishReviewReturn`: the review's own fields, and its author's display name. */
  function FormatReview(r: Row<DishReview>, author: User): (v: ReviewView)
    ensures v.id == r.id && v.note == r.val.note && v.text == r.val.text && v.createdAt == r.val.createdAt
    ensures v.username == GetName(author)
  {
    ReviewView(r.id, r.val.note, r.val.text, GetName(author), r.val.createdAt)
  }

  /** A listed review's entry; formatting a review whose author is gone throws. */
  function ReviewEntry(users: Table<User>, r: Row<DishReview>): (v: Option<ReviewView>)
    ensures v.Some? <==> Resolve(users, r.val.user).Some?
    ensures v.Some? ==> v.value == FormatReview(r, users.rows[r.val.user.value])
  {
    match Resolve(users, r.val.user)
    case None => None
    case Some(author) => Some(FormatReview(r, author.val))
  }

  /** `dish.dishReviews`: the reviews of dish `dishId`, in key order. */
  function ReviewsOf(s: Store, dishId: int): (rs: seq<Row<DishReview>>)
    ensures forall r :: r in rs <==> r.id in s.reviews.rows && r.val == s.reviews.rows[r.id] && r.val.dish == Some(dishId)
    ensures AscendingIds(rs)
  {
    Where(s.reviews, OfDish(dishId))
  }

  /** The condition the `dishReviews` relation puts on a review: it belongs to dish `dishId`. */
  function OfDish(dishId: int): Row<DishReview> -> bool
  {
    (r: Row<DishReview>) => r.val.dish == Some(dishId)
  }

  /** `get`: 404 for an unknown dish, or when any review's author is gone; otherwise one formatted
      entry per review of the dish, in order. Nothing is written. */
  function Get(s: Store, ctx: Ctx, dishId: int): (r: Outcome<ReviewBody>)
    ensures r.store == s
    ensures r.reply.status in {Ok, NotFound}
    ensures dishId !in s.dishes.rows ==> r.reply.status == NotFound
    ensures r.reply.status == Ok <==>
      dishId in s.dishes.rows && forall rv :: rv in ReviewsOf(s, dishId) ==> Resolve(s.users, rv.val.user).Some?
    ensures r.reply.status == Ok ==>
      var rs := ReviewsOf(s, dishId);
      && r.reply.body.Some? && r.reply.body.value.ReviewList?
      && |r.reply.body.value.views| == |rs|
      && forall i :: 0 <= i < |rs| ==>
           r.reply.body.value.views[i] == FormatReview(rs[i], s.users.rows[rs[i].val.user.value])
  {
    match Find(s.dishes, dishId)
    case None => Send(NotFound, ctx, s)
    case Some(_) =>
      var rs := ReviewsOf(s, dishId);
      match MapAll(rs, rv => ReviewEntry(s.users, rv))
      case None => Send(NotFound, ctx, s)
      case Some(views) => Json(Ok, ReviewList(views), ctx, s)
  }

  /** `create`: an unknown dish, a missing note or text (NOT NULL columns), or a note the `integer`
      column cannot hold answers 404 and saves nothing. Otherwise the review is saved under the next
      key, linked to the session user and the dish, and answered formatted with the user's display
      name. Without a session user the review is saved with no author and formatting it then
      throws: 404 after the write. */
  function Create(s: Store, ctx: Ctx, note: Option<int>, text: Option<string>, dishId: int, now: int): (r: Outcome<ReviewBody>)
    ensures r.reply.status in {Ok, NotFound}
    ensures r.reply.status == Ok <==> dishId in s.dishes.rows && note.Some? && Int4(note.value) && text.Some? && ctx.user.Some?
    ensures !(dishId in s.dishes.rows && note.Some? && Int4(note.value) && text.Some?) ==>
      r.store == s && r.reply.status == NotFound
    ensures dishId in s.dishes.rows && note.Some? && Int4(note.value) && text.Some? ==>
      var id := s.reviews.next;
      var review := DishReview(note.value, text.value, KeyOf(ctx.user), Some(dishId), now);
      && id !in s.reviews.rows
      && r.store == s.(reviews := r.store.reviews)
      && r.store.reviews.rows == s.reviews.rows[id := review]
      && (ctx.user.Some? ==> r.reply.body == Some(OneReview(FormatReview(Row(id, review), ctx.user.value.val))))
  {
    match Find(s.dishes, dishId)
    case None => Send(NotFound, ctx, s)
    case Some(dish) =>
      if note.None? || text.None? || !Int4(note.value) then Send(NotFound, ctx, s)
      else
        var id := s.reviews.next;
        var review := DishReview(note.value, text.value, KeyOf(ctx.user), Some(dish.id), now);
        var s' := s.(reviews := Insert(s.reviews, review));
        match ctx.user
        case None => Send(NotFound, ctx, s')
        case Some(author) => Json(Ok, OneReview(FormatReview(Row(id, review), author.val)), ctx, s')
  }

  /** A review created by a session user who is still stored is listed last among its dish's
      reviews, under that user's display name, after the ones listed before. */
  lemma CreatedReviewListedLast(s: Store, ctx: Ctx, note: int, text: string, dishId: int, now: int)
    requires Create(s, ctx, Some(note), Some(text), dishId, now).reply.status == Ok
    requires Get(s, ctx, dishId).reply.status == Ok
    requires ctx.user.Some? && ctx.user.value.id in s.users.rows
    ensures var s' := Create(s, ctx, Some(note), Some(text), dishId, now).store;
      var review := DishReview(note, text, Some(ctx.user.value.id), Some(dishId), now);
      var r := Get(s', ctx, dishId);
      && r.reply.status == Ok
      && r.reply.body.value.views
         == Get(s, ctx, dishId).reply.body.value.views + [FormatReview(Row(s.reviews.next, review), s.users.rows[ctx.user.value.id])]
  {
    var s' := Create(s, ctx, Some(note), Some(text), dishId, now).store;
    var review := DishReview(note, text, Some(ctx.user.value.id), Some(dishId), now);
    var added := Row(s.reviews.next, review);
    var entry := rv => ReviewEntry(s.users, rv);
    WhereInsert(s.reviews, review, OfDish(dishId));
    assert ReviewsOf(s', dishId) == ReviewsOf(s, dishId) + [added];
    assert s'.users == s.users;
    MapAllSnoc(ReviewsOf(s, dishId), added, entry);
  }
}
