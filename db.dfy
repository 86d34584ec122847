/** The two database tables the routes use, held as sequences in insertion
    order by one `Database` object, and the integrity rules the routes keep:
    the unique key (userId, name, type) of categories, and that every
    transaction is positive and points at a category of its own user and of
    its own type. Row ids are generated by the database; here the n-th row
    of a table gets the id "c<n>" or "t<n>". */
module Db {
  import opened Common
  import opened JsString

  datatype Category = Category(id: Id, userId: Id, name: string, kind: Kind)

  datatype Transaction = Transaction(
    id: Id,
    userId: Id,
    categoryId: Id,
    kind: Kind,
    amount: int,
    date: int,            // time value in milliseconds
    note: Option<string>  // `note ?? null`
  )

  /** Id the database gives the n-th category row. */
  function CategoryIdAt(n: nat): Id {
    "c" + Decimal(n)
  }

  /** Id the database gives the n-th transaction row. */
  function TransactionIdAt(n: nat): Id {
    "t" + Decimal(n)
  }

  lemma CategoryIdAtInjective(m: nat, n: nat)
    requires CategoryIdAt(m) == CategoryIdAt(n)
    ensures m == n
  {
    assert Decimal(m) == CategoryIdAt(m)[1..];
    assert Decimal(n) == CategoryIdAt(n)[1..];
    DecimalInjective(m, n);
  }

  /** `category.findFirst({ where: { id, userId } })`: the first row with
      that id owned by that user, if any. */
  function FindCategory(cats: seq<Category>, id: Id, user: Id): (r: Option<Category>)
    ensures r.Some? ==> r.value in cats && r.value.id == id && r.value.userId == user
    ensures r.None? ==> forall c :: c in cats ==> !(c.id == id && c.userId == user)
  {
    if cats == [] then None
    else if cats[0].id == id && cats[0].userId == user then Some(cats[0])
    else FindCategory(cats[1..], id, user)
  }

  /** Some row of `cats` has the unique key (user, name, kind). */
  predicate HasKey(cats: seq<Category>, user: Id, name: string, kind: Kind) {
    exists i :: 0 <= i < |cats| && cats[i].userId == user && cats[i].name == name && cats[i].kind == kind
  }

  /** `@@unique([userId, name, type])`. */
  predicate UniqueKeys(cats: seq<Category>) {
    forall i, j :: 0 <= i < j < |cats| ==>
      !(cats[i].userId == cats[j].userId && cats[i].name == cats[j].name && cats[i].kind == cats[j].kind)
  }

  predicate CategoriesOk(cats: seq<Category>) {
    && (forall i :: 0 <= i < |cats| ==> cats[i].id == CategoryIdAt(i))
    && UniqueKeys(cats)
  }

  /** A stored transaction has a positive amount, a note of at most 200
      UTF-16 code units, and its category belongs to the same user and has
      the same type. */
  predicate TransactionOk(t: Transaction, cats: seq<Category>) {
    && t.amount > 0
    && (t.note.Some? ==> Utf16Length(t.note.value) <= 200)
    && var c := FindCategory(cats, t.categoryId, t.userId);
       c.Some? && c.value.kind == t.kind
  }

  predicate TablesOk(cats: seq<Category>, txs: seq<Transaction>) {
    && CategoriesOk(cats)
    && (forall i :: 0 <= i < |txs| ==> txs[i].id == TransactionIdAt(i) && TransactionOk(txs[i], cats))
  }

  class Database {
    var categories: seq<Category>
    var transactions: seq<Transaction>

    ghost predicate Valid()
      reads this
    {
      TablesOk(categories, transactions)
    }

    constructor ()
      ensures Valid()
      ensures categories == [] && transactions == []
    {
      categories := [];
      transactions := [];
    }
  }

  /** Category ids are distinct, so an id and a user pick at most one row
      and findFirst finds exactly that row. */
  lemma FindCategoryUnique(cats: seq<Category>, i: nat, user: Id)
    requires CategoriesOk(cats) && i < |cats| && cats[i].userId == user
    ensures FindCategory(cats, cats[i].id, user) == Some(cats[i])
  {
    var r := FindCategory(cats, cats[i].id, user);
    var j :| 0 <= j < |cats| && cats[j] == r.value;
    CategoryIdAtInjective(i, j);
  }

  /** Appending a row does not change what findFirst finds among the old
      rows. */
  lemma {:induction false} FindCategoryAppend(cats: seq<Category>, c: Category, id: Id, user: Id)
    requires FindCategory(cats, id, user).Some?
    ensures FindCategory(cats + [c], id, user) == FindCategory(cats, id, user)
  {
    if cats[0].id != id || cats[0].userId != user {
      assert (cats + [c])[1..] == cats[1..] + [c];
      FindCategoryAppend(cats[1..], c, id, user);
    }
  }

  /** Appending a row with another key leaves a free key free. */
  lemma AppendKeepsKeyFree(cats: seq<Category>, c: Category, user: Id, name: string, kind: Kind)
    requires !HasKey(cats, user, name, kind)
    requires !(c.userId == user && c.name == name && c.kind == kind)
    ensures !HasKey(cats + [c], user, name, kind)
  {
    var next := cats + [c];
    forall i | 0 <= i < |next|
      ensures !(next[i].userId == user && next[i].name == name && next[i].kind == kind)
    {
      if i < |cats| {
        assert next[i] == cats[i];
      }
    }
  }

  /** A category whose key is not yet taken, added under the next id, keeps
      every rule; the transactions are unaffected. */
  lemma AddCategoryKeepsTables(cats: seq<Category>, txs: seq<Transaction>, c: Category)
    requires TablesOk(cats, txs)
    requires c.id == CategoryIdAt(|cats|) && !HasKey(cats, c.userId, c.name, c.kind)
    ensures TablesOk(cats + [c], txs)
  {
    var cats' := cats + [c];
    forall i | 0 <= i < |txs|
      ensures TransactionOk(txs[i], cats')
    {
      FindCategoryAppend(cats, c, txs[i].categoryId, txs[i].userId);
    }
    forall i, j | 0 <= i < j < |cats'|
      ensures !(cats'[i].userId == cats'[j].userId && cats'[i].name == cats'[j].name
                && cats'[i].kind == cats'[j].kind)
    {
      if j == |cats| {
        assert cats'[i] == cats[i];
      }
    }
  }

  /** A valid transaction added under the next id keeps every rule. */
  lemma AddTransactionKeepsTables(cats: seq<Category>, txs: seq<Transaction>, t: Transaction)
    requires TablesOk(cats, txs)
    requires t.id == TransactionIdAt(|txs|) && TransactionOk(t, cats)
    ensures TablesOk(cats, txs + [t])
  {
  }
}
