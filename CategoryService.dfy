/**
 * The category tree: categories are created under an existing parent or as
 * roots, with a non-blank name that no sibling already has ignoring case;
 * the stored name is the trimmed input. Roots are listed by name ascending.
 */
module CategoryService {
  import opened Domain
  import opened Text
  import opened Repositories

  // ------------------------------------------------------------ name order

  /**
   * The ascending order of names: lexicographic, character by character,
   * standing in for the database collation that `ORDER BY name` uses.
   */
  predicate NameLe(a: string, b: string)
    ensures a <= b ==> NameLe(a, b)
    ensures NameLe(a, b) && a != [] ==> b != [] && a[0] <= b[0]
  {
    a == [] || (b != [] && (a[0] < b[0] || (a[0] == b[0] && NameLe(a[1..], b[1..]))))
  }

  lemma {:induction false} NameLeTotal(a: string, b: string)
    ensures NameLe(a, b) || NameLe(b, a)
  {
    if a != [] && b != [] && a[0] == b[0] {
      NameLeTotal(a[1..], b[1..]);
    }
  }

  lemma {:induction false} NameLeTransitive(a: string, b: string, c: string)
    requires NameLe(a, b) && NameLe(b, c)
    ensures NameLe(a, c)
  {
    if a != [] && b != [] && c != [] && a[0] == b[0] && b[0] == c[0] {
      NameLeTransitive(a[1..], b[1..], c[1..]);
    }
  }

  /** Categories in ascending name order, each next to the one after it. */
  predicate SortedByName(s: seq<Category>) {
    forall i :: 0 <= i < |s| - 1 ==> NameLe(s[i].name, s[i + 1].name)
  }

  /** `s` holds no category twice. */
  predicate Distinct(s: seq<Category>) {
    forall i, j :: 0 <= i < j < |s| ==> s[i] != s[j]
  }

  /** Inserts `c` into a list sorted by name, before the first name not below it. */
  function InsertByName(c: Category, s: seq<Category>): (r: seq<Category>)
    requires SortedByName(s)
    ensures SortedByName(r)
    ensures multiset(r) == multiset(s) + multiset{c}
    ensures r[0] == c || (s != [] && r[0] == s[0])
  {
    if s == [] || NameLe(c.name, s[0].name) then
      [c] + s
    else
      var rest := InsertByName(c, s[1..]);
      NameLeTotal(c.name, s[0].name);
      assert s == [s[0]] + s[1..];
      [s[0]] + rest
  }

  /** The rows of a query sorted by name (an insertion sort). */
  function SortByName(s: seq<Category>): (r: seq<Category>)
    ensures SortedByName(r)
    ensures multiset(r) == multiset(s)
  {
    if s == [] then []
    else
      assert s == [s[0]] + s[1..];
      InsertByName(s[0], SortByName(s[1..]))
  }

  /** Adjacent order gives order between any two positions. */
  lemma {:induction false} SortedPairwise(s: seq<Category>, i: int, j: int)
    requires SortedByName(s) && 0 <= i <= j < |s|
    ensures NameLe(s[i].name, s[j].name)
    decreases j - i
  {
    if i == j {
      NameLeTotal(s[i].name, s[i].name);
    } else {
      SortedPairwise(s, i + 1, j);
      NameLeTransitive(s[i].name, s[i + 1].name, s[j].name);
    }
  }

  /** A list without repeats has every element at most once. */
  lemma {:induction false} DistinctCount(s: seq<Category>, x: Category)
    requires Distinct(s)
    ensures multiset(s)[x] <= 1
  {
    if s != [] {
      assert s == [s[0]] + s[1..];
      assert Distinct(s[1..]) by {
        forall i, j | 0 <= i < j < |s| - 1
          ensures s[1..][i] != s[1..][j]
        {
          assert s[1..][i] == s[i + 1] && s[1..][j] == s[j + 1];
        }
      }
      DistinctCount(s[1..], x);
      if x == s[0] {
        assert x !in s[1..] by {
          forall k | 0 <= k < |s| - 1
            ensures s[1..][k] != x
          {
            assert s[1..][k] == s[k + 1];
          }
        }
      }
    }
  }

  /** Reordering a list without repeats gives a list without repeats. */
  lemma PermutationKeepsDistinct(s: seq<Category>, t: seq<Category>)
    requires Distinct(s) && multiset(t) == multiset(s)
    ensures Distinct(t)
  {
    forall i, j | 0 <= i < j < |t|
      ensures t[i] != t[j]
    {
      if t[i] == t[j] {
        var x := t[i];
        assert t == t[..i] + [x] + t[i + 1..j] + [x] + t[j + 1..];
        assert multiset(t)[x] >= 2;
        DistinctCount(s, x);
        assert false;
      }
    }
  }

  // -------------------------------------------------------------- queries

  /** categoryRepository.findById, or IllegalArgument. */
  function Get(db: Store, id: Id): (r: Result<Category>)
    reads db`categories
    ensures r.Success? <==> id in db.categories
    ensures r.Success? ==> r.value == db.categories[id]
    ensures r.Failure? ==> r == Failure(IllegalArgument(CategoryNotFound))
  {
    if id in db.categories then Success(db.categories[id]) else Failure(IllegalArgument(CategoryNotFound))
  }

  /** The categories whose parent is `parent` (None: the roots), each once. */
  predicate ListsLevel(categories: map<Id, Category>, rows: seq<Category>, parent: Option<Id>) {
    && (forall i :: 0 <= i < |rows| ==> rows[i].id in categories && categories[rows[i].id] == rows[i] && rows[i].parent == parent)
    && (forall id :: id in categories && categories[id].parent == parent ==> categories[id] in rows)
    && Distinct(rows)
  }

  /** A findAllBy... over one level of the tree. */
  method SelectLevel(db: Store, parent: Option<Id>) returns (rows: seq<Category>)
    requires db.Valid()
    ensures ListsLevel(db.categories, rows, parent)
  {
    ghost var ids;
    rows, ids := Select(db.categories, (c: Category) => c.parent == parent);
    forall id | id in db.categories && db.categories[id].parent == parent
      ensures db.categories[id] in rows
    {
      var i :| 0 <= i < |ids| && ids[i] == id;
      assert rows[i] == db.categories[id];
    }
    forall i, j | 0 <= i < j < |rows|
      ensures rows[i] != rows[j]
    {
      assert rows[i].id == ids[i] && rows[j].id == ids[j];
    }
  }

  /** findAllByParentIsNullOrderByNameAsc: every root, once each, by name ascending. */
  method RootCategories(db: Store) returns (rows: seq<Category>)
    requires db.Valid()
    ensures ListsLevel(db.categories, rows, None)
    ensures forall i, j :: 0 <= i <= j < |rows| ==> NameLe(rows[i].name, rows[j].name)
  {
    var roots := SelectLevel(db, None);
    rows := SortByName(roots);
    PermutationKeepsDistinct(roots, rows);
    forall i | 0 <= i < |rows|
      ensures rows[i] in roots
    {
      assert rows[i] in multiset(rows);
    }
    forall id | id in db.categories && db.categories[id].parent == None
      ensures db.categories[id] in rows
    {
      assert db.categories[id] in multiset(roots);
    }
    forall i, j | 0 <= i <= j < |rows|
      ensures NameLe(rows[i].name, rows[j].name)
    {
      SortedPairwise(rows, i, j);
    }
  }

  /** findAllByParent_Id: every child of `parentId`, once each. */
  method Children(db: Store, parentId: Id) returns (rows: seq<Category>)
    requires db.Valid()
    ensures ListsLevel(db.categories, rows, Some(parentId))
  {
    rows := SelectLevel(db, Some(parentId));
  }

  // -------------------------------------------------------------- creation

  /**
   * Creates a category. In order: a null or blank name is refused, a parent
   * id that names no category is refused, and a name equal ignoring case to
   * a sibling's is refused; the duplicate check compares the name as given,
   * and the stored name is the trimmed one.
   */
  method Create(db: Store, dto: CategoryDto) returns (r: Result<Category>)
    requires db.Valid()
    modifies db`categories, db`nextCategoryId
    ensures db.Valid()
    ensures dto.name.None? || IsBlank(dto.name.value) ==> r == Failure(IllegalArgument(CategoryNameRequired))
    ensures dto.name.Some? && !IsBlank(dto.name.value) && dto.parentId.Some? && dto.parentId.value !in old(db.categories) ==>
              r == Failure(IllegalArgument(ParentCategoryNotFound))
    ensures dto.name.Some? && !IsBlank(dto.name.value) && (dto.parentId.None? || dto.parentId.value in old(db.categories)) ==>
              (r == Failure(IllegalArgument(CategoryExistsOnLevel)) <==>
                 old(db.ExistsByNameIgnoreCaseAndParent(dto.name.value, dto.parentId)))
    ensures (&& dto.name.Some? && !IsBlank(dto.name.value)
             && (dto.parentId.None? || dto.parentId.value in old(db.categories))
             && !old(db.ExistsByNameIgnoreCaseAndParent(dto.name.value, dto.parentId))) ==> r.Success?
    ensures r.Failure? ==> db.categories == old(db.categories) && db.nextCategoryId == old(db.nextCategoryId)
    ensures r.Success? ==>
              && dto.name.Some? && !IsBlank(dto.name.value)
              && (dto.parentId.Some? ==> dto.parentId.value in old(db.categories))
              && (forall id :: id in old(db.categories) && old(db.categories[id].parent) == dto.parentId ==>
                    !EqualsIgnoreCase(old(db.categories[id].name), dto.name.value))
              && r.value == Category(old(db.nextCategoryId), Trim(dto.name.value), dto.parentId)
              && db.categories == old(db.categories)[r.value.id := r.value]
              && db.nextCategoryId == old(db.nextCategoryId) + 1
  {
    if dto.name.None? || IsBlank(dto.name.value) {
      return Failure(IllegalArgument(CategoryNameRequired));
    }
    var name := dto.name.value;
    if dto.parentId.Some? && dto.parentId.value !in db.categories {
      return Failure(IllegalArgument(ParentCategoryNotFound));
    }
    if db.ExistsByNameIgnoreCaseAndParent(name, dto.parentId) {
      return Failure(IllegalArgument(CategoryExistsOnLevel));
    }
    var saved := db.SaveNewCategory(Category(0, Trim(name), dto.parentId));
    r := Success(saved);
  }

  /**
   * The duplicate check sees the name before trimming: " Books" passes next
   * to a sibling "Books", and is then stored as "Books".
   */
  lemma UntrimmedDuplicatePasses()
    ensures !EqualsIgnoreCase("Books", " Books")
    ensures Trim(" Books") == "Books"
  {
    assert !EqualsIgnoreCase("Books", " Books") by {
      assert ToUpper(" Books")[0] == UpperChar(' ') == ' ';
      assert ToUpper("Books")[0] == UpperChar('B') == 'B';
    }
    assert Trim(" Books") == "Books" by {
      assert " Books"[1..] == "Books";
      assert TrimLeft(" Books") == TrimLeft("Books") == "Books";
      assert TrimRight("Books") == "Books";
    }
  }
}
