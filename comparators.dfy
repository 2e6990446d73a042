/**
 * The table's sort order: a list of key-path comparators over the four
 * columns (name, date modified, size, kind), each forward or reverse,
 * applied lexicographically as `sort(using:)` does.
 */
module Comparators {
  import opened FileItems

  datatype Ord = Less | Same | Greater

  function Flip(o: Ord): Ord {
    match o
    case Less => Greater
    case Same => Same
    case Greater => Less
  }

  /** Three-way comparison of strings by character code; a proper prefix comes first. */
  function CompareStrings(a: string, b: string): (r: Ord)
    ensures r == Same <==> a == b
  {
    if a == [] && b == [] then Same
    else if a == [] then Less
    else if b == [] then Greater
    else if a[0] < b[0] then Less
    else if b[0] < a[0] then Greater
    else
      var r := CompareStrings(a[1..], b[1..]);
      assert r == Same ==> a == [a[0]] + a[1..] == [b[0]] + b[1..] == b;
      r
  }

  function CompareInts(a: int, b: int): (r: Ord)
    ensures r == Same <==> a == b
    ensures r == Less <==> a < b
  {
    if a < b then Less else if b < a then Greater else Same
  }

  lemma {:induction false} CompareStringsFlip(a: string, b: string)
    ensures CompareStrings(b, a) == Flip(CompareStrings(a, b))
  {
    if a != [] && b != [] && a[0] == b[0] {
      CompareStringsFlip(a[1..], b[1..]);
    }
  }

  lemma {:induction false} CompareStringsTransitive(a: string, b: string, c: string)
    requires CompareStrings(a, b) != Greater && CompareStrings(b, c) != Greater
    ensures CompareStrings(a, c) != Greater
  {
    if a != [] && b != [] && c != [] && a[0] == b[0] && b[0] == c[0] {
      CompareStringsTransitive(a[1..], b[1..], c[1..]);
    }
  }

  /** The four sortable columns of the table. */
  datatype SortKey = Name | DateModified | Size | Kind

  datatype SortDirection = Forward | Reverse

  /** One `KeyPathComparator<FileItem>`. */
  datatype KeyComparator = KeyComparator(key: SortKey, order: SortDirection)

  /** The initial sort order: by name, forward. */
  const DefaultSortOrder: seq<KeyComparator> := [KeyComparator(Name, Forward)]

  /** The fields the comparators read; children play no part in ordering. */
  predicate SameSortKeys(x: FileItem, y: FileItem) {
    x.url == y.url && x.modificationDate == y.modificationDate &&
    x.fileSize == y.fileSize && x.kind == y.kind
  }

  function CompareOnKey(key: SortKey, x: FileItem, y: FileItem): Ord {
    match key
    case Name => CompareStrings(LastPathComponent(x.url), LastPathComponent(y.url))
    case DateModified => CompareInts(x.modificationDate, y.modificationDate)
    case Size => CompareInts(SizeForSorting(x), SizeForSorting(y))
    case Kind => CompareStrings(x.kind, y.kind)
  }

  function CompareBy(c: KeyComparator, x: FileItem, y: FileItem): Ord {
    var base := CompareOnKey(c.key, x, y);
    if c.order == Forward then base else Flip(base)
  }

  /** The whole sort order: the first comparator that tells the items apart decides. */
  function Compare(order: seq<KeyComparator>, x: FileItem, y: FileItem): (r: Ord)
    ensures r == Same <==> forall k | 0 <= k < |order| :: CompareBy(order[k], x, y) == Same
    ensures r != Same ==> exists k | 0 <= k < |order| ::
      r == CompareBy(order[k], x, y) && forall j | 0 <= j < k :: CompareBy(order[j], x, y) == Same
    decreases |order|
  {
    if order == [] then Same
    else
      var o := CompareBy(order[0], x, y);
      if o != Same then o
      else
        var rest := Compare(order[1..], x, y);
        assert forall k | 0 <= k < |order[1..]| :: order[1..][k] == order[k + 1];
        rest
  }

  /** `x` may stand before `y` in a list sorted by `order`. */
  predicate InOrder(order: seq<KeyComparator>, x: FileItem, y: FileItem) {
    Compare(order, x, y) != Greater
  }

  lemma CompareOnKeyFlip(key: SortKey, x: FileItem, y: FileItem)
    ensures CompareOnKey(key, y, x) == Flip(CompareOnKey(key, x, y))
  {
    match key
    case Name => CompareStringsFlip(LastPathComponent(x.url), LastPathComponent(y.url));
    case Kind => CompareStringsFlip(x.kind, y.kind);
    case DateModified =>
    case Size =>
  }

  lemma CompareOnKeyTransitive(key: SortKey, x: FileItem, y: FileItem, z: FileItem)
    requires CompareOnKey(key, x, y) != Greater && CompareOnKey(key, y, z) != Greater
    ensures CompareOnKey(key, x, z) != Greater
  {
    match key
    case Name =>
      CompareStringsTransitive(LastPathComponent(x.url), LastPathComponent(y.url), LastPathComponent(z.url));
    case Kind => CompareStringsTransitive(x.kind, y.kind, z.kind);
    case DateModified =>
    case Size =>
  }

  lemma CompareByFlip(c: KeyComparator, x: FileItem, y: FileItem)
    ensures CompareBy(c, y, x) == Flip(CompareBy(c, x, y))
  {
    CompareOnKeyFlip(c.key, x, y);
  }

  /** One comparator is a total preorder: transitive, and ties are transitive too. */
  lemma CompareByTransitive(c: KeyComparator, x: FileItem, y: FileItem, z: FileItem)
    requires CompareBy(c, x, y) != Greater && CompareBy(c, y, z) != Greater
    ensures CompareBy(c, x, z) != Greater
    ensures CompareBy(c, x, z) == Same ==> CompareBy(c, x, y) == Same && CompareBy(c, y, z) == Same
  {
    CompareOnKeyFlip(c.key, x, y);
    CompareOnKeyFlip(c.key, y, z);
    CompareOnKeyFlip(c.key, x, z);
    if c.order == Forward {
      CompareOnKeyTransitive(c.key, x, y, z);
      if CompareOnKey(c.key, x, z) == Same {
        // x and z tie, so y lies between two equal keys
        CompareOnKeyTransitive(c.key, y, z, x);
        CompareOnKeyTransitive(c.key, z, x, y);
      }
    } else {
      CompareOnKeyTransitive(c.key, z, y, x);
      if CompareOnKey(c.key, x, z) == Same {
        CompareOnKeyTransitive(c.key, x, z, y);
        CompareOnKeyTransitive(c.key, y, x, z);
      }
    }
  }

  /** Swapping the arguments of the sort order reverses its verdict. */
  lemma {:induction false} CompareFlip(order: seq<KeyComparator>, x: FileItem, y: FileItem)
    ensures Compare(order, y, x) == Flip(Compare(order, x, y))
    decreases |order|
  {
    if order != [] {
      CompareByFlip(order[0], x, y);
      CompareFlip(order[1..], x, y);
    }
  }

  /** The sort order is transitive, and two items tie only if they tie with everything between them. */
  lemma {:induction false} CompareTransitive(order: seq<KeyComparator>, x: FileItem, y: FileItem, z: FileItem)
    requires Compare(order, x, y) != Greater && Compare(order, y, z) != Greater
    ensures Compare(order, x, z) != Greater
    ensures Compare(order, x, z) == Same ==> Compare(order, x, y) == Same && Compare(order, y, z) == Same
    decreases |order|
  {
    if order != [] {
      var c := order[0];
      CompareByFlip(c, x, y);
      CompareByFlip(c, y, z);
      CompareByTransitive(c, x, y, z);
      if CompareBy(c, x, y) == Same && CompareBy(c, y, z) == Same {
        CompareTransitive(order[1..], x, y, z);
      }
    }
  }

  /** Any two items can be put in some order. */
  lemma InOrderTotal(order: seq<KeyComparator>, x: FileItem, y: FileItem)
    ensures InOrder(order, x, y) || InOrder(order, y, x)
  {
    CompareFlip(order, x, y);
  }

  lemma InOrderTransitive(order: seq<KeyComparator>, x: FileItem, y: FileItem, z: FileItem)
    requires InOrder(order, x, y) && InOrder(order, y, z)
    ensures InOrder(order, x, z)
  {
    CompareTransitive(order, x, y, z);
  }

  /** Items with the same name, date, size and kind compare alike, whatever their children. */
  lemma {:induction false} CompareIgnoresChildren(order: seq<KeyComparator>, x: FileItem, x': FileItem, y: FileItem, y': FileItem)
    requires SameSortKeys(x, x') && SameSortKeys(y, y')
    ensures Compare(order, x, y) == Compare(order, x', y')
    decreases |order|
  {
    if order != [] {
      CompareIgnoresChildren(order[1..], x, x', y, y');
    }
  }
}
