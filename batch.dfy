/**
 * The batch input of the app: a comma-separated list of keywords or page
 * ids, each piece stripped of surrounding whitespace, empty pieces dropped.
 */
module Batch {
  import opened Strings

  /** `[p.strip() for p in parts if p.strip()]` */
  function NonEmptyStripped(parts: seq<string>): (items: seq<string>)
    ensures |items| <= |parts|
    ensures forall k :: 0 <= k < |items| ==> items[k] != [] && Trimmed(items[k])
  {
    if parts == [] then []
    else
      var item := Strip(parts[0]);
      (if item != [] then [item] else []) + NonEmptyStripped(parts[1..])
  }

  /** Filtering distributes over concatenation, so the items keep the order of their pieces. */
  lemma {:induction false} NonEmptyStrippedAppend(a: seq<string>, b: seq<string>)
    ensures NonEmptyStripped(a + b) == NonEmptyStripped(a) + NonEmptyStripped(b)
  {
    if a == [] {
      assert a + b == b;
    } else {
      assert (a + b)[0] == a[0] && (a + b)[1..] == a[1..] + b;
      NonEmptyStrippedAppend(a[1..], b);
    }
  }

  /** A single piece gives its stripped text, or nothing when that is empty. */
  lemma NonEmptyStrippedSingle(part: string)
    ensures NonEmptyStripped([part]) == if Strip(part) != [] then [Strip(part)] else []
  {
    assert [part][1..] == [];
  }

  /** The stripped text of every piece, blank ones included. */
  function StrippedPieces(parts: seq<string>): (stripped: seq<string>)
    ensures |stripped| == |parts|
  {
    if parts == [] then [] else [Strip(parts[0])] + StrippedPieces(parts[1..])
  }

  /** The j-th stripped piece is the j-th piece, stripped. */
  lemma {:induction false} StrippedPiecesAt(parts: seq<string>, j: nat)
    requires j < |parts|
    ensures StrippedPieces(parts)[j] == Strip(parts[j])
  {
    if j > 0 {
      StrippedPiecesAt(parts[1..], j - 1);
    }
  }

  /** Every item is one of the stripped pieces. */
  predicate FromPieces(items: seq<string>, stripped: seq<string>)
  {
    forall k :: 0 <= k < |items| ==> items[k] in stripped
  }

  /** Every non-empty stripped piece is an item. */
  predicate KeepsPieces(items: seq<string>, stripped: seq<string>)
  {
    forall j :: 0 <= j < |stripped| && stripped[j] != [] ==> stripped[j] in items
  }

  /** One more piece in front: it contributes itself when non-empty. */
  lemma PiecesStep(x: string, stripped: seq<string>, rest: seq<string>)
    requires FromPieces(rest, stripped) && KeepsPieces(rest, stripped)
    ensures var head: seq<string> := if x != [] then [x] else [];
      FromPieces(head + rest, [x] + stripped) && KeepsPieces(head + rest, [x] + stripped)
  {
    var head: seq<string> := if x != [] then [x] else [];
    var items := head + rest;
    var all := [x] + stripped;
    forall k | 0 <= k < |items| ensures items[k] in all {
      if k < |head| {
        assert items[k] == x == all[0];
      } else {
        assert items[k] == rest[k - |head|];
        assert rest[k - |head|] in stripped;
      }
    }
    forall j | 0 <= j < |all| && all[j] != [] ensures all[j] in items {
      if j == 0 {
        assert items[0] == x;
      } else {
        assert all[j] == stripped[j - 1];
        assert stripped[j - 1] in rest;
      }
    }
  }

  /** The items are exactly the non-empty stripped pieces: each item is one, and each one is an item. */
  lemma {:induction false} NonEmptyStrippedMembers(parts: seq<string>)
    ensures FromPieces(NonEmptyStripped(parts), StrippedPieces(parts))
    ensures KeepsPieces(NonEmptyStripped(parts), StrippedPieces(parts))
  {
    if parts != [] {
      var tail := parts[1..];
      NonEmptyStrippedMembers(tail);
      PiecesStep(Strip(parts[0]), StrippedPieces(tail), NonEmptyStripped(tail));
    }
  }

  /** No piece holds a comma. */
  predicate NoComma(parts: seq<string>)
  {
    forall k :: 0 <= k < |parts| ==> ',' !in parts[k]
  }

  /** Stripping adds no character: pieces without commas give items without commas. */
  lemma {:induction false} NonEmptyStrippedNoComma(parts: seq<string>)
    requires NoComma(parts)
    ensures NoComma(NonEmptyStripped(parts))
  {
    if parts != [] {
      StripKeepsOut(parts[0], ',');
      assert NoComma(parts[1..]);
      NonEmptyStrippedNoComma(parts[1..]);
      var item := Strip(parts[0]);
      var head: seq<string> := if item != [] then [item] else [];
      assert NoComma(head);
      NoCommaAppend(head, NonEmptyStripped(parts[1..]));
    }
  }

  lemma NoCommaAppend(a: seq<string>, b: seq<string>)
    requires NoComma(a) && NoComma(b)
    ensures NoComma(a + b)
  {
    forall k | 0 <= k < |a + b| ensures ',' !in (a + b)[k] {
      if k < |a| { assert (a + b)[k] == a[k]; } else { assert (a + b)[k] == b[k - |a|]; }
    }
  }

  /** `[item.strip() for item in input_data.split(',') if item.strip()]` */
  function SplitItems(input: string): (items: seq<string>)
    ensures forall k :: 0 <= k < |items| ==> items[k] != [] && Trimmed(items[k]) && ',' !in items[k]
  {
    var parts := Split(input, ',');
    NonEmptyStrippedNoComma(parts);
    NonEmptyStripped(parts)
  }

  /** Pieces that are already non-empty and trimmed are kept, in order. */
  lemma {:induction false} NonEmptyStrippedKeeps(parts: seq<string>)
    requires forall k :: 0 <= k < |parts| ==> parts[k] != [] && Trimmed(parts[k])
    ensures NonEmptyStripped(parts) == parts
  {
    if parts != [] {
      StripTrimmed(parts[0]);
      NonEmptyStrippedKeeps(parts[1..]);
      assert parts == [parts[0]] + parts[1..];
    }
  }

  /** Items without commas, joined with commas, come back as they were. */
  lemma SplitItemsJoin(items: seq<string>)
    requires forall k :: 0 <= k < |items| ==> items[k] != [] && Trimmed(items[k]) && ',' !in items[k]
    ensures SplitItems(Join(items, ',')) == items
  {
    if items == [] {
      assert Split("", ',') == [""];
      assert Strip("") == "";
    } else {
      SplitJoin(items, ',');
      NonEmptyStrippedKeeps(items);
    }
  }

  /**
   * Splitting pieces joined with commas strips each piece and drops the
   * blank ones, keeping the order: `" nike, adidas ,,puma "` gives the
   * stripped `nike`, `adidas` and `puma`.
   */
  lemma SplitItemsOfJoin(parts: seq<string>)
    requires |parts| >= 1 && NoComma(parts)
    ensures SplitItems(Join(parts, ',')) == NonEmptyStripped(parts)
  {
    SplitJoin(parts, ',');
  }
}
