/**
 * Row editing in `KeyValueEditor`, the list editor used for both query parameters and
 * headers. An edit reports the new list through `onChange`; typing into the last row can
 * report a second list with a fresh blank row appended, so that there is always a row to
 * type into. `crypto.randomUUID()` is the parameter `freshId`.
 */
module KeyValueEditor {
  import opened RequestContext

  /** `{ ...row, [field]: value }`. */
  function ApplyEdit(row: KeyValue, edit: RowEdit): (r: KeyValue)
    ensures r.id == (if edit.EditId? then edit.newId else row.id)
    ensures r.key == (if edit.EditKey? then edit.newKey else row.key)
    ensures r.value == (if edit.EditValue? then edit.newValue else row.value)
    ensures r.enabled == (if edit.EditEnabled? then edit.newEnabled else row.enabled)
  {
    match edit
    case EditId(v) => row.(id := v)
    case EditKey(v) => row.(key := v)
    case EditValue(v) => row.(value := v)
    case EditEnabled(v) => row.(enabled := v)
  }

  /** The row appended after the last one: empty key and value, enabled. */
  function BlankRow(id: string): KeyValue {
    KeyValue(id, "", "", true)
  }

  /**
   * The condition for the second `onChange`: the edit is to the last row, it sets the key
   * or the value to a non-empty (truthy) string, and that row had a key or a value BEFORE
   * the edit.
   */
  predicate AppendsRow(items: seq<KeyValue>, index: nat, edit: RowEdit)
    requires index < |items|
  {
    && index == |items| - 1
    && ((edit.EditKey? && edit.newKey != "") || (edit.EditValue? && edit.newValue != ""))
    && (items[index].key != "" || items[index].value != "")
  }

  /** The lists `handleUpdate` passes to `onChange`, in order. */
  function Emitted(items: seq<KeyValue>, index: nat, edit: RowEdit, freshId: string): seq<seq<KeyValue>>
    requires index < |items|
  {
    var updated := items[index := ApplyEdit(items[index], edit)];
    if AppendsRow(items, index, edit) then [updated, updated + [BlankRow(freshId)]] else [updated]
  }

  /**
   * `handleUpdate(index, field, value)`: copy the list into an array, overwrite the one
   * element, report it, and maybe report it again with a blank row appended.
   */
  method HandleUpdate(items: seq<KeyValue>, index: nat, edit: RowEdit, freshId: string)
    returns (emitted: seq<seq<KeyValue>>)
    requires index < |items|
    ensures emitted == Emitted(items, index, edit, freshId)
  {
    var newItems := new KeyValue[|items|](i requires 0 <= i < |items| => items[i]);
    newItems[index] := ApplyEdit(newItems[index], edit);
    emitted := [newItems[..]];
    if index == |items| - 1 && ((edit.EditKey? && edit.newKey != "") || (edit.EditValue? && edit.newValue != "")) {
      if items[index].key != "" || items[index].value != "" {
        emitted := emitted + [newItems[..] + [BlankRow(freshId)]];
      }
    }
    assert newItems[..] == items[index := ApplyEdit(items[index], edit)];
  }

  /** `handleRemove(index)`: `items.filter((_, i) => i !== index)`. */
  function Remove(items: seq<KeyValue>, index: int): (r: seq<KeyValue>)
    ensures |r| == if 0 <= index < |items| then |items| - 1 else |items|
    decreases |items|
  {
    if items == [] then []
    else (if index == 0 then [] else [items[0]]) + Remove(items[1..], index - 1)
  }

  /** The trash button is rendered on every row except the last. */
  predicate RemoveOffered(items: seq<KeyValue>, index: int) {
    0 <= index < |items| && index != |items| - 1
  }

  /**
   * The first list reported has the same length, the edited row differs only in the edited
   * field, and every other row is unchanged.
   */
  lemma UpdateTouchesOneField(items: seq<KeyValue>, index: nat, edit: RowEdit, freshId: string)
    requires index < |items|
    ensures var first := Emitted(items, index, edit, freshId)[0];
      && |first| == |items|
      && (forall j | 0 <= j < |items| && j != index :: first[j] == items[j])
      && first[index] == ApplyEdit(items[index], edit)
  {
  }

  /** A second list is reported exactly when `AppendsRow` holds, and it is the first plus one blank row. */
  lemma AppendShape(items: seq<KeyValue>, index: nat, edit: RowEdit, freshId: string)
    requires index < |items|
    ensures var lists := Emitted(items, index, edit, freshId);
      && 1 <= |lists| <= 2
      && (|lists| == 2 <==> AppendsRow(items, index, edit))
      && (|lists| == 2 ==> lists[1] == lists[0] + [BlankRow(freshId)])
  {
  }

  /** Toggling the checkbox, or editing any row but the last, never appends a row. */
  lemma NoAppendOutsideLastRowText(items: seq<KeyValue>, index: nat, edit: RowEdit, freshId: string)
    requires index < |items|
    requires edit.EditEnabled? || edit.EditId? || index != |items| - 1
    ensures |Emitted(items, index, edit, freshId)| == 1
  {
  }

  /**
   * The first character typed into a blank last row does not append (the test looks at the
   * row before the edit); the second one does.
   */
  lemma SecondKeystrokeAppends(items: seq<KeyValue>, c1: string, c2: string, id1: string, id2: string)
    requires |items| > 0 && items[|items| - 1].key == "" && items[|items| - 1].value == ""
    requires c1 != "" && c2 != ""
    ensures var once := Emitted(items, |items| - 1, EditKey(c1), id1);
      && |once| == 1
      && |Emitted(once[0], |items| - 1, EditKey(c2), id2)| == 2
  {
    var once: seq<seq<KeyValue>> := Emitted(items, |items| - 1, EditKey(c1), id1);
    assert once[0][|items| - 1].key == c1;
  }

  /** The lists reach the request state through `SET_FIELD`; the state ends with the last one reported. */
  lemma LastEmittedWins(s: RequestState, items: seq<KeyValue>, index: nat, edit: RowEdit, freshId: string)
    requires index < |items|
    ensures var lists := Emitted(items, index, edit, freshId);
      var actions := seq(|lists|, i requires 0 <= i < |lists| => SetField(QueryParamsValue(lists[i])));
      ReduceAll(s, actions).queryParams == lists[|lists| - 1]
  {
    var lists := Emitted(items, index, edit, freshId);
    var actions := seq(|lists|, i requires 0 <= i < |lists| => SetField(QueryParamsValue(lists[i])));
    assert actions[..|actions| - 1] == if |lists| == 2 then [actions[0]] else [];
    if |lists| == 2 {
      assert [actions[0]][..0] == [];
    }
  }

  /** Removing a valid index deletes exactly that row and keeps the others in order. */
  lemma {:induction false} RemoveValidIndex(items: seq<KeyValue>, index: int)
    requires 0 <= index < |items|
    ensures Remove(items, index) == items[..index] + items[index + 1..]
  {
    if index > 0 {
      RemoveValidIndex(items[1..], index - 1);
      assert items[1..][..index - 1] == items[1..index];
      assert items[1..][index..] == items[index + 1..];
      assert items[..index] == [items[0]] + items[1..index];
    } else {
      RemoveInvalidIndex(items[1..], -1);
    }
  }

  /** Removing an index outside the list changes nothing. */
  lemma {:induction false} RemoveInvalidIndex(items: seq<KeyValue>, index: int)
    requires index < 0 || |items| <= index
    ensures Remove(items, index) == items
  {
    if items != [] {
      RemoveInvalidIndex(items[1..], index - 1);
      assert items == [items[0]] + items[1..];
    }
  }

  /** A removal the editor offers shortens the list by one and keeps the last row, so the list never empties. */
  lemma OfferedRemovalKeepsLastRow(items: seq<KeyValue>, index: int)
    requires RemoveOffered(items, index)
    ensures |Remove(items, index)| == |items| - 1 >= 1
    ensures Remove(items, index)[|items| - 2] == items[|items| - 1]
  {
    RemoveValidIndex(items, index);
  }
}
