/** The entities the handlers read but whose own logic is not modelled: only the
    columns and relations the handlers use are kept. */
module Schema {
  import opened Wrappers

  /** The range of a PostgreSQL `integer` column, which is what TypeORM makes of a `number`
      column: saving a value outside it fails. */
  const INT4_MIN: int := -0x8000_0000
  const INT4_MAX: int := 0x7FFF_FFFF

  predicate Int4(x: int)
  {
    INT4_MIN <= x <= INT4_MAX
  }

  /** A restaurant and the id of its owner (a one-to-one relation with a user). */
  datatype Restaurant = Restaurant(name: string, owner: Option<int>)

  /** A menu category and the restaurant it belongs to. */
  datatype Category = Category(name: string, restaurant: Option<int>)

  /** A dish, its integer price, the category listing it, and its creation time in milliseconds.
      The source declares no `category` column on dishes, although the category's `dishes`
      relation names one as its inverse; the model supplies that link (see Findings). */
  datatype Dish = Dish(
    name: string,
    description: string,
    image: Option<string>,
    price: int,
    category: Option<int>,
    createdAt: int)

  /** A review of a dish by a user. */
  datatype DishReview = DishReview(
    note: int,
    text: string,
    user: Option<int>,
    dish: Option<int>,
    createdAt: int)
}
