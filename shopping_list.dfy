/**
 * The list editor of app/components/ShoppingList.tsx: an input box limited
 * to 20 UTF-16 code units (JavaScript's `length`), the list being built, the warning flag, and the draft
 * kept in `localStorage` under `shopping_list_draft`.
 *
 * The draft is held as what `JSON.parse` makes of the stored text; the
 * editor itself only ever stores `JSON.stringify(items)`, which parses back
 * to `items`. Whether a user is signed in, whether authentication is still
 * loading, and how `saveShoppingList` ends are parameters.
 */
module ShoppingListEditor {
  import opened Wrappers
  import opened Text

  const MaxItemLength: nat := 20

  /** What `JSON.parse` makes of the stored draft. */
  datatype ParsedDraft = Unparsable | NotAnArray | ArrayOf(items: seq<string>)

  /** An item `handleAddItem` can add: non-empty, no surrounding whitespace, a `length` of at most 20. */
  predicate IsValidItem(s: string) {
    s != [] && !IsJsSpace(s[0]) && !IsJsSpace(s[|s| - 1]) && Utf16Length(s) <= MaxItemLength
  }

  /** `items.filter((_, i) => i !== index)` */
  function RemoveIndex(items: seq<string>, index: int): (r: seq<string>)
    ensures 0 <= index < |items| ==> r == items[..index] + items[index + 1..]
    ensures !(0 <= index < |items|) ==> r == items
  {
    if items == [] then []
    else
      var rest := RemoveIndex(items[1..], index - 1);
      assert items == [items[0]] + items[1..];
      if index == 0 then rest else [items[0]] + rest
  }

  class Editor {
    var items: seq<string>
    var inputValue: string
    var showCharLimitWarning: bool
    /** The `localStorage` entry, if present and non-empty. */
    var draft: Option<ParsedDraft>

    /** The input never holds more than the limit. */
    predicate InputFits()
      reads this
    {
      Utf16Length(inputValue) <= MaxItemLength
    }

    /** Lines 17-20, with the storage as the page finds it. */
    constructor (stored: Option<ParsedDraft>)
      ensures items == [] && inputValue == [] && !showCharLimitWarning && draft == stored
      ensures InputFits()
    {
      items := [];
      inputValue := [];
      showCharLimitWarning := false;
      draft := stored;
    }

    /** `handleInputChange` (lines 91-104): a value over the limit is refused and raises the warning. */
    method HandleInputChange(value: string)
      modifies this
      ensures Utf16Length(value) <= MaxItemLength ==> inputValue == value && !showCharLimitWarning
      ensures Utf16Length(value) > MaxItemLength ==> inputValue == old(inputValue) && showCharLimitWarning
      ensures items == old(items) && draft == old(draft)
      ensures old(InputFits()) ==> InputFits()
    {
      if Utf16Length(value) <= MaxItemLength {
        inputValue := value;
        showCharLimitWarning := false;
      } else {
        showCharLimitWarning := true;
      }
    }

    /**
     * `handleAddItem` (lines 106-130). `promptedSignIn` is true when the
     * sign-in dialog opens instead. While authentication is still loading the
     * item is added even without a user.
     */
    method HandleAddItem(signedIn: bool, authLoading: bool) returns (promptedSignIn: bool)
      modifies this
      ensures promptedSignIn <==> !signedIn && !authLoading
      ensures promptedSignIn || Trim(old(inputValue)) == [] ==>
        items == old(items) && inputValue == old(inputValue) && showCharLimitWarning == old(showCharLimitWarning)
      ensures !promptedSignIn && Utf16Length(Trim(old(inputValue))) > MaxItemLength ==>
        items == old(items) && inputValue == old(inputValue) && showCharLimitWarning
      ensures !promptedSignIn && Trim(old(inputValue)) != [] && Utf16Length(Trim(old(inputValue))) <= MaxItemLength ==>
        && items == old(items) + [Trim(old(inputValue))]
        && IsValidItem(items[|items| - 1])
        && inputValue == [] && !showCharLimitWarning
      ensures old(InputFits()) && !promptedSignIn && Trim(old(inputValue)) != [] ==> items == old(items) + [Trim(old(inputValue))]
      ensures draft == old(draft)
      ensures old(InputFits()) ==> InputFits()
    {
      if !signedIn && !authLoading {
        return true;
      }
      promptedSignIn := false;
      var trimmed := Trim(inputValue);
      TrimUtf16Length(inputValue);
      if trimmed == [] {
      } else if Utf16Length(trimmed) > MaxItemLength {
        showCharLimitWarning := true;
      } else {
        items := items + [trimmed];
        inputValue := [];
        showCharLimitWarning := false;
      }
    }

    /** `handleDeleteItem` (lines 132-134): exactly the element at `index` goes; any other index changes nothing. */
    method HandleDeleteItem(index: int)
      modifies this
      ensures 0 <= index < |old(items)| ==>
        |items| == |old(items)| - 1
        && (forall k :: 0 <= k < index ==> items[k] == old(items)[k])
        && (forall k :: index <= k < |items| ==> items[k] == old(items)[k + 1])
      ensures !(0 <= index < |old(items)|) ==> items == old(items)
      ensures inputValue == old(inputValue) && showCharLimitWarning == old(showCharLimitWarning) && draft == old(draft)
    {
      items := RemoveIndex(items, index);
    }

    /** The effect of lines 62-71, run whenever `items` changes: the draft mirrors a non-empty list. */
    method MirrorDraft()
      modifies this
      ensures draft.Some? <==> items != []
      ensures draft.Some? ==> draft == Some(ArrayOf(items))
      ensures items == old(items) && inputValue == old(inputValue) && showCharLimitWarning == old(showCharLimitWarning)
    {
      if |items| > 0 {
        draft := Some(ArrayOf(items));
      } else {
        draft := None;
      }
    }

    /**
     * The restoring effects (lines 29-43 on mount, 46-60 when a user signs in):
     * any non-empty parsed array replaces the items as it is, without the
     * checks `handleAddItem` makes.
     */
    method RestoreDraft(signedIn: bool, onMount: bool)
      modifies this
      ensures (onMount || signedIn) && draft.Some? && draft.value.ArrayOf? && draft.value.items != [] ==>
        items == draft.value.items
      ensures !((onMount || signedIn) && draft.Some? && draft.value.ArrayOf? && draft.value.items != []) ==>
        items == old(items)
      ensures inputValue == old(inputValue) && showCharLimitWarning == old(showCharLimitWarning) && draft == old(draft)
    {
      if !onMount && !signedIn {
        return;
      }
      if draft.Some? {
        match draft.value {
          case ArrayOf(restored) =>
            if |restored| > 0 {
              items := restored;
            }
          case Unparsable =>
          case NotAnArray =>
        }
      }
    }

    /**
     * `handleSave` (lines 142-208). An empty list is never saved. Without a
     * user the list is stored as the draft and the sign-in dialog opens.
     * Otherwise the list is saved (`saveError` is how `saveShoppingList`
     * fails, if it does); on success the list and the draft are cleared.
     */
    method HandleSave(signedIn: bool, saveError: Option<string>) returns (saved: Option<seq<string>>, promptedSignIn: bool)
      modifies this
      ensures old(items) == [] ==>
        saved.None? && !promptedSignIn && items == old(items) && draft == old(draft)
      ensures old(items) != [] && !signedIn ==>
        saved.None? && promptedSignIn && items == old(items) && draft == Some(ArrayOf(old(items)))
      ensures old(items) != [] && signedIn ==> saved == Some(old(items))
      ensures old(items) != [] && signedIn && saveError.None? ==> items == [] && draft.None? && !promptedSignIn
      ensures old(items) != [] && signedIn && saveError.Some? ==>
        items == old(items) && draft == old(draft) && promptedSignIn == (saveError.value == SignInRequired)
      ensures inputValue == old(inputValue) && showCharLimitWarning == old(showCharLimitWarning)
    {
      saved := None;
      promptedSignIn := false;
      if |items| == 0 {
        return;
      }
      if !signedIn {
        draft := Some(ArrayOf(items));
        promptedSignIn := true;
        return;
      }
      saved := Some(items);
      if saveError.None? {
        items := [];
        draft := None;
      } else {
        promptedSignIn := saveError.value == SignInRequired;
      }
    }
  }

  /**
   * Eleven emoji are eleven characters but 22 UTF-16 code units: the input box
   * refuses them and raises the warning.
   */
  lemma ElevenEmojiAreOverTheLimit(value: string)
    requires |value| == 11 && forall k :: 0 <= k < |value| ==> value[k] == '\U{1F600}'
    ensures |value| <= MaxItemLength && Utf16Length(value) == 22 > MaxItemLength
  {
    Utf16LengthOutsideBmp(value);
  }

  /** The message on which a failed save opens the sign-in dialog (line 198). */
  const SignInRequired := "You have to sign in in order to save a list"

  /** Deleting by index loses one copy of that element and keeps every other one. */
  lemma RemoveIndexKeepsOthers(items: seq<string>, index: int)
    requires 0 <= index < |items|
    ensures multiset(RemoveIndex(items, index)) + multiset{items[index]} == multiset(items)
  {
    SliceAroundIndex(items, index);
  }

  /** Taking out the element at `i` leaves the elements before and after it. */
  lemma SliceAroundIndex<T>(s: seq<T>, i: int)
    requires 0 <= i < |s|
    ensures multiset(s[..i] + s[i + 1..]) + multiset{s[i]} == multiset(s)
  {
    assert s == (s[..i] + [s[i]]) + s[i + 1..];
    assert multiset(s) == multiset(s[..i] + [s[i]]) + multiset(s[i + 1..]);
  }
}
