/**
 * `GET /events/categories`: the distinct non-empty `kategori` values of the
 * stored events, ascending, as a plain list of strings.
 */
module Categories {
  import opened Text
  import opened Store

  /** Each name is smaller than every later one: ascending and free of repeats. */
  predicate StrictlyAscending(s: seq<string>) {
    forall i, j :: 0 <= i < j < |s| ==> LexLess(s[i], s[j])
  }

  function Elements(s: seq<string>): set<string> {
    set x | x in s
  }

  /** `kategori IS NOT NULL AND kategori != ''`: the column holds a non-empty string. */
  predicate Listable(e: Event) {
    e.kategori.Text? && e.kategori.s != ""
  }

  /** Adds one name to an ascending list; a name already present is not repeated (`DISTINCT`). */
  function InsertCategory(c: string, s: seq<string>): (r: seq<string>)
    requires StrictlyAscending(s)
    ensures StrictlyAscending(r)
    ensures forall x :: x in r <==> x == c || x in s
  {
    if s == [] then [c]
    else if c == s[0] then s
    else if LexLess(c, s[0]) then
      assert forall j :: 0 < j < |s| ==> LexLess(c, s[j]) by {
        forall j | 0 < j < |s| ensures LexLess(c, s[j]) {
          LexLessTransitive(c, s[0], s[j]);
        }
      }
      [c] + s
    else
      LexLessTotal(c, s[0]);
      var rest := InsertCategory(c, s[1..]);
      assert forall x :: x in s[1..] ==> LexLess(s[0], x) by {
        forall x | x in s[1..] ensures LexLess(s[0], x) {
          var k :| 0 <= k < |s[1..]| && s[1..][k] == x;
          assert s[k + 1] == x;
        }
      }
      assert s == [s[0]] + s[1..];
      [s[0]] + rest
  }

  /** Some row holds the listable category `x`. */
  predicate InUse(rows: seq<Row>, x: string) {
    exists i :: 0 <= i < |rows| && Listable(rows[i].event) && rows[i].event.kategori.s == x
  }

  /** The categories of a sequence of rows, ascending and distinct. */
  function CollectCategories(rows: seq<Row>): (r: seq<string>)
    ensures StrictlyAscending(r)
    ensures forall x :: x in r <==> InUse(rows, x)
  {
    if rows == [] then []
    else
      var rest := CollectCategories(rows[1..]);
      assert forall x :: InUse(rows, x) <==>
                         (Listable(rows[0].event) && rows[0].event.kategori.s == x) || InUse(rows[1..], x) by {
        forall x | InUse(rows, x) && !(Listable(rows[0].event) && rows[0].event.kategori.s == x)
          ensures InUse(rows[1..], x)
        {
          var i :| 0 <= i < |rows| && Listable(rows[i].event) && rows[i].event.kategori.s == x;
          assert rows[1..][i - 1] == rows[i];
        }
        forall x | InUse(rows[1..], x) ensures InUse(rows, x) {
          var i :| 0 <= i < |rows[1..]| && Listable(rows[1..][i].event) && rows[1..][i].event.kategori.s == x;
          assert rows[i + 1] == rows[1..][i];
        }
      }
      if Listable(rows[0].event) then InsertCategory(rows[0].event.kategori.s, rest) else rest
  }

  /** `getCategories`. */
  function GetCategories(db: Db): Response {
    Response(200, CategoryList(CollectCategories(Scan(db))))
  }

  /** The categories in use: a reference definition over the whole table. */
  function CategorySet(db: Db): set<string> {
    set id | id in db.events && Listable(db.events[id]) :: db.events[id].kategori.s
  }

  /** The response lists exactly the categories in use, each once, ascending. */
  lemma GetCategoriesExact(db: Db)
    requires Consistent(db)
    ensures var r := GetCategories(db);
            r.status == 200 && r.payload.CategoryList? &&
            StrictlyAscending(r.payload.names) && Elements(r.payload.names) == CategorySet(db)
  {
    var scan := Scan(db);
    var names := CollectCategories(scan);
    forall x | x in CategorySet(db) ensures x in names {
      var id :| id in db.events && Listable(db.events[id]) && db.events[id].kategori.s == x;
      var i :| 0 <= i < |scan| && scan[i].id == id;
      assert InUse(scan, x) by {
        assert Listable(scan[i].event) && scan[i].event.kategori.s == x;
      }
    }
    forall x | x in names ensures x in CategorySet(db) {
      var i :| 0 <= i < |scan| && Listable(scan[i].event) && scan[i].event.kategori.s == x;
      assert scan[i].id in db.events && db.events[scan[i].id] == scan[i].event;
    }
  }

  /** A strictly ascending list is determined by its elements. */
  lemma {:induction false} StrictlyAscendingUnique(a: seq<string>, b: seq<string>)
    requires StrictlyAscending(a) && StrictlyAscending(b) && Elements(a) == Elements(b)
    ensures a == b
    decreases |a|
  {
    if a == [] {
      assert forall i :: 0 <= i < |b| ==> b[i] in Elements(a);
    } else {
      assert a[0] in Elements(b);
      assert b != [];
      assert b[0] in Elements(a);
      if a[0] != b[0] {
        var k :| 0 <= k < |b| && b[k] == a[0];
        var m :| 0 <= m < |a| && a[m] == b[0];
        assert LexLess(b[0], a[0]);
        assert LexLess(a[0], b[0]);
        LexLessAsymmetric(a[0], b[0]);
        assert false;
      }
      forall i | 0 < i < |a| ensures a[i] != a[0] {
        LexLessIrreflexive(a[0]);
      }
      forall i | 0 < i < |b| ensures b[i] != b[0] {
        LexLessIrreflexive(b[0]);
      }
      assert Elements(a[1..]) == Elements(a) - {a[0]} by {
        assert a == [a[0]] + a[1..];
        forall x | x in a[1..] ensures x != a[0] {
          var i :| 0 <= i < |a[1..]| && a[1..][i] == x;
          assert a[i + 1] == x;
        }
      }
      assert Elements(b[1..]) == Elements(b) - {b[0]} by {
        assert b == [b[0]] + b[1..];
        forall x | x in b[1..] ensures x != b[0] {
          var i :| 0 <= i < |b[1..]| && b[1..][i] == x;
          assert b[i + 1] == x;
        }
      }
      StrictlyAscendingUnique(a[1..], b[1..]);
      assert a == [a[0]] + a[1..] && b == [b[0]] + b[1..];
    }
  }

  /** The answer depends only on which categories are in use, never on storage order. */
  lemma GetCategoriesDetermined(db1: Db, db2: Db)
    requires Consistent(db1) && Consistent(db2) && CategorySet(db1) == CategorySet(db2)
    ensures GetCategories(db1) == GetCategories(db2)
  {
    GetCategoriesExact(db1);
    GetCategoriesExact(db2);
    StrictlyAscendingUnique(GetCategories(db1).payload.names, GetCategories(db2).payload.names);
  }
}
