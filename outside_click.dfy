/**
 * `useOutsideClick(ref, handler)`: a document-wide pointer-down listener that calls
 * the handler when the element behind `ref` is mounted and does not contain the
 * event's target. While the ref holds no element the listener does nothing.
 */
module OutsideClick {

  /** Whether a pointer-down calls the handler. */
  predicate Fires(mounted: bool, targetInside: bool) {
    mounted && !targetInside
  }
}
