/**
 * The content script's page bookkeeping: which code blocks carry a
 * "Copy Clean" button, the enable/disable switch, the MutationObserver and
 * its debounced rescan, and the settings listener.
 *
 * The page is abstracted to the list `blocks` that `querySelectorAll` over
 * the code selectors returns, in document order; each block keeps only what
 * the script looks at or changes. Timers are a pending flag, and the DOM
 * work of `addCopyButton` is the `wrapped` flag.
 */
module PageScanner {
  import opened JsString
  import opened TextCleaner

  datatype Option<T> = None | Some(value: T)

  /** One element matching the code selectors.
      `textLength` is `textContent.trim().length`; `processed` is the
      `data-ccc-processed` attribute; `wrapped` says `addCopyButton` moved
      the element into a `.ccc-copy-button-wrapper`; `present` says the
      element is still attached to the document. */
  datatype Block = Block(textLength: nat, processed: bool, wrapped: bool, present: bool)

  /** A block needs more than this many characters of trimmed text. */
  const MinTextLength: nat := 10

  /** A newly found element: attached, no attribute, no wrapper. */
  function NewBlock(textLength: nat): (b: Block)
    ensures b.present && !b.processed && !b.wrapped && b.textLength == textLength
  {
    Block(textLength, false, false, true)
  }

  /** The blocks a page holds before the script touches it. */
  function NewBlocks(textLengths: seq<nat>): (bs: seq<Block>)
    ensures |bs| == |textLengths|
    ensures forall i :: 0 <= i < |bs| ==> bs[i] == NewBlock(textLengths[i])
  {
    seq(|textLengths|, i requires 0 <= i < |textLengths| => NewBlock(textLengths[i]))
  }

  /** `processed` and `wrapped` always go together: `addCopyButton` and
      `setAttribute` run as a pair, and cleanup never clears the attribute
      of a block that is still wrapped and attached. */
  predicate Consistent(b: Block) {
    b.processed == b.wrapped
  }

  predicate AllConsistent(bs: seq<Block>) {
    forall i :: 0 <= i < |bs| ==> Consistent(bs[i])
  }

  /** No attached block carries a button or the attribute. */
  predicate NoneMarked(bs: seq<Block>) {
    forall i :: 0 <= i < |bs| ==> bs[i].present ==> !bs[i].processed && !bs[i].wrapped
  }

  // ---------------------------------------------------------------------------
  // Element-wise maps over the block list (the `forEach` loops)
  // ---------------------------------------------------------------------------

  /** `f` applied to every block, in order: a `forEach` that updates each
      element on its own. */
  function Map(f: Block -> Block, bs: seq<Block>): (r: seq<Block>)
    ensures |r| == |bs|
    ensures forall i :: 0 <= i < |bs| ==> r[i] == f(bs[i])
    decreases |bs|
  {
    if bs == [] then [] else Map(f, bs[..|bs| - 1]) + [f(bs[|bs| - 1])]
  }

  // ---------------------------------------------------------------------------
  // initializeCodeCleaner
  // ---------------------------------------------------------------------------

  predicate IsFalse(m: bool) {
    !m
  }

  /** `element.closest(selectors)`: `matches` says, for the element and
      then each of its ancestors, nearest first, whether it matches the
      selectors; the result is the position of the nearest one that does. */
  function Closest(matches: seq<bool>): (r: Option<nat>)
    ensures r.Some? ==> r.value < |matches| && matches[r.value]
    ensures r.Some? ==> forall k :: 0 <= k < r.value ==> !matches[k]
    ensures r.None? ==> forall k :: 0 <= k < |matches| ==> !matches[k]
  {
    var n := SpanFrom(IsFalse, matches, 0);
    if n < |matches| then Some(n) else None
  }

  /** The tests of the scan's `forEach` body for a block whose ancestors
      match the selectors as `ancestorsMatch` says: more than 10 characters
      of trimmed text, no attribute yet, and `closest` finds the block
      itself, which matched the selectors. */
  predicate PassesScanTests(b: Block, ancestorsMatch: seq<bool>) {
    && b.textLength > MinTextLength
    && !b.processed
    && Closest([true] + ancestorsMatch) == Some(0)
  }

  /** A block the scan registers: `querySelectorAll` on the document still
      finds it, and it passes the tests. The nesting test never rejects,
      whatever the block's ancestors, so it does not appear in the body. */
  predicate Qualifies(b: Block): (r: bool)
    ensures forall ancestorsMatch: seq<bool> :: r <==> b.present && PassesScanTests(b, ancestorsMatch)
  {
    b.present && b.textLength > MinTextLength && !b.processed
  }

  /** `addCopyButton(block)` followed by `setAttribute('data-ccc-processed', 'true')`. */
  function Register(b: Block): Block {
    b.(processed := true, wrapped := true)
  }

  function ScanBlock(b: Block): Block {
    if Qualifies(b) then Register(b) else b
  }

  /** One enabled pass of `initializeCodeCleaner` over the blocks:
      afterwards no block qualifies, and only qualifying blocks changed. */
  function Scan(bs: seq<Block>): (r: seq<Block>)
    ensures |r| == |bs|
    ensures !SomeQualify(r)
    ensures forall i :: 0 <= i < |bs| && !Qualifies(bs[i]) ==> r[i] == bs[i]
  {
    Map(ScanBlock, bs)
  }

  /** Some block would get a button: the scan changes the page. */
  predicate SomeQualify(bs: seq<Block>) {
    exists i :: 0 <= i < |bs| && Qualifies(bs[i])
  }

  lemma {:induction false} SomeQualifyStep(bs: seq<Block>, k: nat)
    requires k < |bs|
    ensures SomeQualify(bs[..k + 1]) == (SomeQualify(bs[..k]) || Qualifies(bs[k]))
  {
    assert bs[..k + 1][k] == bs[k];
    if SomeQualify(bs[..k]) {
      var j :| 0 <= j < k && Qualifies(bs[..k][j]);
      assert bs[..k + 1][j] == bs[..k][j];
    }
    if SomeQualify(bs[..k + 1]) && !Qualifies(bs[k]) {
      var j :| 0 <= j < k + 1 && Qualifies(bs[..k + 1][j]);
      assert bs[..k][j] == bs[..k + 1][j];
    }
  }

  /** What a scan does to one block: it gets the attribute and a button
      exactly when it is attached, long enough and not yet processed;
      length and attachment never change, and every other block is left
      as it was. */
  lemma {:induction false} ScanAt(bs: seq<Block>, i: nat)
    requires i < |bs|
    ensures |Scan(bs)| == |bs|
    ensures Scan(bs)[i].textLength == bs[i].textLength && Scan(bs)[i].present == bs[i].present
    ensures Scan(bs)[i].processed <==> bs[i].processed || (bs[i].present && bs[i].textLength > MinTextLength)
    ensures Scan(bs)[i].wrapped <==> bs[i].wrapped || Qualifies(bs[i])
    ensures !Qualifies(bs[i]) ==> Scan(bs)[i] == bs[i]
  {
  }

  /** A second scan with nothing else changed registers nothing and leaves
      the page as it is. */
  lemma {:induction false} ScanIdempotent(bs: seq<Block>)
    ensures Scan(Scan(bs)) == Scan(bs)
  {
    var s := Scan(bs);
    forall i | 0 <= i < |s| ensures !Qualifies(s[i]) && Scan(s)[i] == s[i] {
      ScanAt(bs, i);
      ScanAt(s, i);
    }
  }

  /** A scan changes the page exactly when some block qualifies. */
  lemma {:induction false} ScanChangesIffSomeQualify(bs: seq<Block>)
    ensures Scan(bs) != bs <==> SomeQualify(bs)
  {
    if SomeQualify(bs) {
      var i :| 0 <= i < |bs| && Qualifies(bs[i]);
      ScanAt(bs, i);
      assert Scan(bs)[i] != bs[i];
    } else {
      forall i | 0 <= i < |bs| ensures Scan(bs)[i] == bs[i] {
        ScanAt(bs, i);
      }
    }
  }

  lemma {:induction false} ScanKeepsConsistent(bs: seq<Block>)
    requires AllConsistent(bs)
    ensures AllConsistent(Scan(bs))
  {
    forall i | 0 <= i < |bs| ensures Consistent(Scan(bs)[i]) {
      ScanAt(bs, i);
    }
  }

  // ---------------------------------------------------------------------------
  // cleanupCodeCleaner
  // ---------------------------------------------------------------------------

  /** `btn.remove()` on a wrapper: the code block inside it leaves the
      document with it. */
  function DetachWrapped(b: Block): Block {
    if b.present && b.wrapped then b.(present := false) else b
  }

  /** `el.removeAttribute('data-ccc-processed')`, for the elements the second
      `querySelectorAll` still finds in the document. */
  function ClearMarker(b: Block): Block {
    if b.present && b.processed then b.(processed := false) else b
  }

  /** Both lines of `cleanupCodeCleaner`, in order: afterwards no attached
      block carries the attribute or a button, and detached blocks are left
      as they were. */
  function Cleanup(bs: seq<Block>): (r: seq<Block>)
    ensures |r| == |bs|
    ensures NoneMarked(r)
    ensures forall i :: 0 <= i < |bs| && !bs[i].present ==> r[i] == bs[i]
  {
    Map(ClearMarker, Map(DetachWrapped, bs))
  }

  /** What cleanup does to one block: a block with a button leaves the page
      together with its wrapper; any other block stays attached, loses the
      attribute and keeps its length. */
  lemma {:induction false} CleanupAt(bs: seq<Block>, i: nat)
    requires i < |bs|
    ensures |Cleanup(bs)| == |bs|
    ensures Cleanup(bs)[i].textLength == bs[i].textLength && Cleanup(bs)[i].wrapped == bs[i].wrapped
    ensures Cleanup(bs)[i].present <==> bs[i].present && !bs[i].wrapped
    ensures Cleanup(bs)[i].present ==> !Cleanup(bs)[i].processed
    ensures !bs[i].present ==> Cleanup(bs)[i] == bs[i]
  {
  }

  /** On a consistent page the attribute pass finds nothing to do: every
      element with the attribute sat in a wrapper, and left the document
      with it. */
  lemma {:induction false} CleanupOnlyDetaches(bs: seq<Block>)
    requires AllConsistent(bs)
    ensures Cleanup(bs) == Map(DetachWrapped, bs)
  {
    var d := Map(DetachWrapped, bs);
    forall i | 0 <= i < |bs| ensures Cleanup(bs)[i] == d[i] {
      }
  }

  lemma {:induction false} CleanupKeepsConsistent(bs: seq<Block>)
    requires AllConsistent(bs)
    ensures AllConsistent(Cleanup(bs))
  {
    CleanupOnlyDetaches(bs);
    forall i | 0 <= i < |bs| ensures Consistent(Cleanup(bs)[i]) {
      }
  }

  /** Turning the extension off and on again does not bring a button back:
      the block that had one left the page, and the scan only looks at
      attached blocks. */
  lemma {:induction false} ReenableLosesWrappedBlocks(bs: seq<Block>, i: nat)
    requires i < |bs| && bs[i].present && bs[i].wrapped
    ensures !Scan(Cleanup(bs))[i].present
    ensures Scan(Cleanup(bs))[i] == Cleanup(bs)[i]
  {
    CleanupAt(bs, i);
    ScanAt(Cleanup(bs), i);
  }

  // ---------------------------------------------------------------------------
  // The script's state
  // ---------------------------------------------------------------------------

  /** A key of `changes` in the `onChanged` listener: absent, or present with
      its `newValue` already converted by `!!`. */
  datatype Change = Unchanged | Changed(newValue: bool)

  class CodeCleaner {
    /** The elements matching the code selectors, in document order. */
    var blocks: seq<Block>
    /** `settings.isEnabled` */
    var isEnabled: bool
    /** `settings.preserveIndentation` */
    var preserveIndentation: bool
    /** Whether `observer` is connected to `document.body`. */
    var observing: bool
    /** Whether `observer.debounce` holds a timer that has not fired. */
    var pendingRescan: bool

    ghost predicate Valid()
      reads this
    {
      && AllConsistent(blocks)
      && (observing <==> isEnabled)
      && (!isEnabled ==> NoneMarked(blocks))
    }

    /** The script as loaded on a page: default settings, then the
        `chrome.storage.local.get` callback, where a stored value other
        than `false` (a missing one included) means on. */
    constructor (textLengths: seq<nat>, storedEnabled: Option<bool>, storedPreserve: Option<bool>)
      ensures Valid()
      ensures isEnabled == (storedEnabled != Some(false))
      ensures preserveIndentation == (storedPreserve != Some(false))
      ensures blocks == if isEnabled then Scan(NewBlocks(textLengths)) else NewBlocks(textLengths)
      ensures !pendingRescan
    {
      blocks := NewBlocks(textLengths);
      isEnabled := true;
      preserveIndentation := true;
      observing := false;
      pendingRescan := false;
      new;
      isEnabled := storedEnabled != Some(false);
      preserveIndentation := storedPreserve != Some(false);
      if isEnabled {
        InitializeCodeCleaner();
        StartObserver();
      }
    }

    /** `initializeCodeCleaner`: when enabled, every qualifying block gets a
        button and the attribute. The wrappers it inserts are added nodes, so
        while the observer is connected they arm the debounce again. */
    method InitializeCodeCleaner()
      requires AllConsistent(blocks) && (!isEnabled ==> NoneMarked(blocks))
      modifies this
      ensures blocks == if old(isEnabled) then Scan(old(blocks)) else old(blocks)
      ensures pendingRescan == (old(pendingRescan) || (old(isEnabled) && observing && SomeQualify(old(blocks))))
      ensures AllConsistent(blocks) && (!isEnabled ==> NoneMarked(blocks))
      ensures isEnabled == old(isEnabled) && preserveIndentation == old(preserveIndentation)
      ensures observing == old(observing)
    {
      if !isEnabled {
        return;
      }
      ghost var start := blocks;
      var added := false;
      for k := 0 to |blocks|
        invariant |blocks| == |start|
        invariant forall j :: 0 <= j < k ==> blocks[j] == ScanBlock(start[j])
        invariant forall j :: k <= j < |start| ==> blocks[j] == start[j]
        invariant added == SomeQualify(start[..k])
        invariant isEnabled && preserveIndentation == old(preserveIndentation)
        invariant observing == old(observing) && pendingRescan == old(pendingRescan)
      {
        SomeQualifyStep(start, k);
        if Qualifies(blocks[k]) {
          blocks := blocks[k := Register(blocks[k])];
          added := true;
        }
      }
      assert start[..|start|] == start;
            ScanKeepsConsistent(start);
      if added && observing {
        pendingRescan := true;
      }
    }

    /** `cleanupCodeCleaner`: remove every wrapper, then the attribute from
        every element that still has it. */
    method CleanupCodeCleaner()
      modifies this
      ensures blocks == Cleanup(old(blocks))
      ensures isEnabled == old(isEnabled) && preserveIndentation == old(preserveIndentation)
      ensures observing == old(observing) && pendingRescan == old(pendingRescan)
    {
      ghost var start := blocks;
      for k := 0 to |blocks|
        invariant |blocks| == |start|
        invariant forall j :: 0 <= j < k ==> blocks[j] == DetachWrapped(start[j])
        invariant forall j :: k <= j < |start| ==> blocks[j] == start[j]
        invariant isEnabled == old(isEnabled) && preserveIndentation == old(preserveIndentation)
        invariant observing == old(observing) && pendingRescan == old(pendingRescan)
      {
        if blocks[k].present && blocks[k].wrapped {
          blocks := blocks[k := blocks[k].(present := false)];
        }
      }
      ghost var detached := blocks;
      for k := 0 to |blocks|
        invariant |blocks| == |detached|
        invariant forall j :: 0 <= j < k ==> blocks[j] == ClearMarker(detached[j])
        invariant forall j :: k <= j < |detached| ==> blocks[j] == detached[j]
        invariant isEnabled == old(isEnabled) && preserveIndentation == old(preserveIndentation)
        invariant observing == old(observing) && pendingRescan == old(pendingRescan)
      {
        if blocks[k].present && blocks[k].processed {
          blocks := blocks[k := blocks[k].(processed := false)];
        }
      }
    }

    /** `startObserver` */
    method StartObserver()
      modifies this
      ensures observing == (old(observing) || isEnabled)
      ensures blocks == old(blocks) && isEnabled == old(isEnabled)
      ensures preserveIndentation == old(preserveIndentation) && pendingRescan == old(pendingRescan)
    {
      if !isEnabled {
        return;
      }
      observing := true;
    }

    /** `stopObserver`: disconnecting does not cancel a pending timer. */
    method StopObserver()
      modifies this
      ensures !observing
      ensures blocks == old(blocks) && isEnabled == old(isEnabled)
      ensures preserveIndentation == old(preserveIndentation) && pendingRescan == old(pendingRescan)
    {
      observing := false;
    }

    /** The MutationObserver callback, given the number of added nodes of
        each mutation record: any record with added nodes replaces the
        pending timer by a new one, so at most one rescan is ever pending. */
    method OnMutations(addedCounts: seq<nat>)
      requires observing
      modifies this
      ensures pendingRescan == (old(pendingRescan) || exists i :: 0 <= i < |addedCounts| && addedCounts[i] > 0)
      ensures blocks == old(blocks) && isEnabled == old(isEnabled)
      ensures preserveIndentation == old(preserveIndentation) && observing == old(observing)
    {
      for k := 0 to |addedCounts|
        invariant pendingRescan == (old(pendingRescan) || exists i :: 0 <= i < k && addedCounts[i] > 0)
        invariant blocks == old(blocks) && isEnabled == old(isEnabled)
        invariant preserveIndentation == old(preserveIndentation) && observing == old(observing)
      {
        if addedCounts[k] > 0 {
          pendingRescan := true;
        }
      }
    }

    /** The debounce timer fires and runs `initializeCodeCleaner`. After the
        extension was turned off this changes nothing but the timer: the
        scan checks `isEnabled` first. */
    method FireRescan()
      requires Valid() && pendingRescan
      modifies this
      ensures Valid()
      ensures blocks == if isEnabled then Scan(old(blocks)) else old(blocks)
      ensures pendingRescan == (isEnabled && SomeQualify(old(blocks)))
      ensures isEnabled == old(isEnabled) && preserveIndentation == old(preserveIndentation)
      ensures observing == old(observing)
      ensures !isEnabled ==> blocks == old(blocks) && !pendingRescan
    {
      pendingRescan := false;
      InitializeCodeCleaner();
    }

    /** The `chrome.storage.onChanged` listener. Turning on scans and then
        connects the observer; turning off cleans up and then disconnects
        it. Only changes in the `local` area count. */
    method OnChanged(isLocal: bool, enabled: Change, indentation: Change)
      requires Valid()
      modifies this
      ensures Valid()
      ensures !isLocal ==>
                && blocks == old(blocks) && isEnabled == old(isEnabled)
                && preserveIndentation == old(preserveIndentation)
                && observing == old(observing) && pendingRescan == old(pendingRescan)
      ensures isLocal && enabled == Changed(true) ==>
                && isEnabled && observing
                && blocks == Scan(old(blocks))
                && pendingRescan == (old(pendingRescan) || (old(observing) && SomeQualify(old(blocks))))
      ensures isLocal && enabled == Changed(false) ==>
                && !isEnabled && !observing
                && blocks == Cleanup(old(blocks))
                && pendingRescan == old(pendingRescan)
      ensures isLocal && enabled == Unchanged ==>
                && blocks == old(blocks) && isEnabled == old(isEnabled)
                && observing == old(observing) && pendingRescan == old(pendingRescan)
      ensures preserveIndentation == if isLocal && indentation.Changed? then indentation.newValue
                                     else old(preserveIndentation)
    {
      if isLocal {
        if enabled.Changed? {
          isEnabled := enabled.newValue;
          if isEnabled {
            InitializeCodeCleaner();
            StartObserver();
          } else {
            ghost var before := blocks;
            CleanupCodeCleaner();
            CleanupKeepsConsistent(before);
            StopObserver();
          }
        }
        if indentation.Changed? {
          preserveIndentation := indentation.newValue;
        }
      }
    }

    /** The page itself inserts more code blocks (not part of the script:
        this is what the observer is there to notice). */
    method PageAddsBlocks(textLengths: seq<nat>)
      requires Valid()
      modifies this
      ensures Valid()
      ensures blocks == old(blocks) + NewBlocks(textLengths)
      ensures isEnabled == old(isEnabled) && preserveIndentation == old(preserveIndentation)
      ensures observing == old(observing) && pendingRescan == old(pendingRescan)
    {
      blocks := blocks + NewBlocks(textLengths);
    }

    /** `handleCopyClick` up to the clipboard write: the text the button
        copies. `preserveIndentation` is read but cannot matter. */
    method HandleCopyClick(decode: string -> string, rawText: string) returns (cleanedText: string)
      ensures cleanedText == Cleaned(decode(rawText), preserveIndentation)
      ensures cleanedText == Cleaned(decode(rawText), true)
    {
      cleanedText := CleanCode(decode, rawText, preserveIndentation);
      PreserveIndentationHasNoEffect(decode(rawText));
    }
  }
}
