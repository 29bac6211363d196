/**
 * Drag and drop onto the document: which payloads are taken over from the
 * browser, and which are handed to the editor's loader.  The loading itself
 * is the loader's; only the decision is modelled.
 */
module Drop {
  import opened Wrappers

  /**
   * `event.dataTransfer`: its `types`, its item list when the browser offers
   * one, and its files.  Items and files are named by their file names.
   */
  datatype DataTransfer = DataTransfer(types: seq<string>, items: Option<seq<string>>, files: seq<string>)

  /** What the drop hands to the loader. */
  datatype Load = NoLoad | LoadItemList(items: seq<string>) | LoadFiles(files: seq<string>)

  datatype DropOutcome = DropOutcome(preventDefault: bool, load: Load)

  /** The type `types[0]` reports; an empty list gives `undefined`. */
  function FirstType(types: seq<string>): (t: Option<string>)
    ensures t.None? <==> types == []
    ensures t.Some? ==> t.value == types[0]
  {
    if types == [] then None else Some(types[0])
  }

  /** A drag from the editor's own outliner carries plain text. */
  function OutlinerDrag(d: DataTransfer): (b: bool)
    ensures b <==> |d.types| > 0 && d.types[0] == "text/plain"
  {
    FirstType(d.types) == Some("text/plain")
  }

  /** `handleDrop(event)`. */
  function HandleDrop(transfer: Option<DataTransfer>): (o: DropOutcome)
    ensures o.preventDefault <==> transfer.Some?
    ensures o.load != NoLoad <==> transfer.Some? && !OutlinerDrag(transfer.value)
    ensures o.load.LoadItemList? ==> transfer.value.items == Some(o.load.items)
    ensures o.load.LoadFiles? ==> transfer.value.items.None? && o.load.files == transfer.value.files
  {
    match transfer
    case None => DropOutcome(false, NoLoad)
    case Some(d) =>
      if OutlinerDrag(d) then DropOutcome(true, NoLoad)
      else if d.items.Some? then DropOutcome(true, LoadItemList(d.items.value))
      else DropOutcome(true, LoadFiles(d.files))
  }

  /** Files from outside go to the item list loader when it exists, and to the file loader otherwise. */
  lemma ExternalDropLoads(d: DataTransfer)
    requires !OutlinerDrag(d)
    ensures HandleDrop(Some(d)).load == if d.items.Some? then LoadItemList(d.items.value) else LoadFiles(d.files)
  {
  }

  /** What `handleDragOver` does: whether it prevents the default, and the drop effect it sets. */
  datatype DragOverOutcome = DragOverOutcome(preventDefault: bool, dropEffect: Option<string>)

  /** `handleDragOver(event)`: any payload is accepted as a copy. */
  function HandleDragOver(transfer: Option<DataTransfer>): (o: DragOverOutcome)
    ensures o.preventDefault <==> transfer.Some?
    ensures o.dropEffect.Some? <==> transfer.Some?
    ensures o.dropEffect.Some? ==> o.dropEffect.value == "copy"
  {
    if transfer.None? then DragOverOutcome(false, None) else DragOverOutcome(true, Some("copy"))
  }

  /** A drag over the page is taken over exactly when the drop would be. */
  lemma DragOverAgreesWithDrop(transfer: Option<DataTransfer>)
    ensures HandleDragOver(transfer).preventDefault == HandleDrop(transfer).preventDefault
  {
  }

}
