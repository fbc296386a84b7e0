/** `RangeSlider`'s drag arithmetic, identical in both card viewers. The pixel-to-value rounding
    is not modelled: `change` is the already-rounded integer `valueChange`. */
module RangeSlider {

  function Max(a: int, b: int): int { if a >= b then a else b }
  function Min(a: int, b: int): int { if a <= b then a else b }

  /** Dragging the min thumb: the dragged value, capped one below the max thumb, then raised to
      the track's minimum. */
  function DragMin(min: int, maxValue: int, startMin: int, change: int): (r: int)
    ensures r >= min
    ensures min <= maxValue - 1 ==> r <= maxValue - 1
    ensures min <= startMin + change <= maxValue - 1 ==> r == startMin + change
    ensures startMin + change < min ==> r == min
    ensures startMin + change > maxValue - 1 ==> r == Max(min, maxValue - 1)
  {
    Max(min, Min(maxValue - 1, startMin + change))
  }

  /** Dragging the max thumb: the dragged value, capped at the track's maximum, then raised to
      one above the min thumb. */
  function DragMax(max: int, minValue: int, startMax: int, change: int): (r: int)
    ensures r >= minValue + 1
    ensures minValue + 1 <= max ==> r <= max
    ensures minValue + 1 <= startMax + change <= max ==> r == startMax + change
    ensures startMax + change > max ==> r == Max(minValue + 1, max)
    ensures startMax + change < minValue + 1 ==> r == minValue + 1
  {
    Max(minValue + 1, Min(max, startMax + change))
  }

  /** A slider state inside its track with the min thumb strictly left of the max thumb. */
  predicate ValidSlider(min: int, max: int, minValue: int, maxValue: int) {
    min <= minValue < maxValue <= max
  }

  /** Either drag keeps a valid slider valid, whatever the drag distance. */
  lemma DragKeepsSliderValid(min: int, max: int, minValue: int, maxValue: int, start: int, change: int)
    requires ValidSlider(min, max, minValue, maxValue)
    ensures ValidSlider(min, max, DragMin(min, maxValue, start, change), maxValue)
    ensures ValidSlider(min, max, minValue, DragMax(max, minValue, start, change))
  {
  }
}
