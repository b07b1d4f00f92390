/**
 * The pieces of the browser the scripts touch: JavaScript values, copy events with
 * their DataTransfer, and the Blob and ClipboardItem objects of the async Clipboard API.
 */
module Browser {
  import opened Wrappers

  const TEXT_PLAIN := "text/plain"

  /** A JavaScript value: a string, or any other value (`id` tells such values apart). */
  datatype JsValue = JsString(str: string) | JsOther(id: nat)

  /** A copy event's `clipboardData`: the formats set so far and their data. */
  class DataTransfer {
    var store: map<string, string>

    constructor (store: map<string, string>)
      ensures this.store == store
    {
      this.store := store;
    }

    /** `setData(format, data)`. */
    method SetData(format: string, data: string)
      modifies this
      ensures store == old(store)[format := data]
    {
      store := store[format := data];
    }
  }

  /** A `copy` event. `targetHtml` is `e?.target?.innerHTML`: None when any link is missing. */
  class CopyEvent {
    const clipboardData: DataTransfer
    const targetHtml: Option<string>
    var defaultPrevented: bool

    constructor (clipboardData: DataTransfer, targetHtml: Option<string>)
      ensures this.clipboardData == clipboardData && this.targetHtml == targetHtml
      ensures !defaultPrevented
    {
      this.clipboardData := clipboardData;
      this.targetHtml := targetHtml;
      defaultPrevented := false;
    }

    /** `preventDefault()`: the browser will not copy the selection itself. */
    method PreventDefault()
      modifies this
      ensures defaultPrevented
    {
      defaultPrevented := true;
    }
  }

  /** A Blob, with the text `blob.text()` resolves to. */
  datatype Blob = Blob(mime: string, text: string)

  /**
   * A ClipboardItem: the `types` it lists (None when the property is missing) and
   * the blob `getType` resolves to for each type it holds.
   */
  datatype ClipboardItem = ClipboardItem(types: Option<seq<string>>, blobs: map<string, Blob>)

  /** `item.types || []`. */
  function TypesOf(item: ClipboardItem): seq<string>
  {
    item.types.GetOr([])
  }

  /** `item.getType(type)`: None when the promise rejects because the item holds no such type. */
  function GetType(item: ClipboardItem, mime: string): Option<Blob>
  {
    if mime in item.blobs then Some(item.blobs[mime]) else None
  }
}
