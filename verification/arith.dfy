/** Order facts about real division shared by the price rules and the chart layout. */
module RealOrder {

  /** Dividing by a positive amount keeps the order of the numerators, strictly or not. */
  lemma DivMonotone(a: real, b: real, d: real)
    requires a <= b && d > 0.0
    ensures a / d <= b / d && (a < b ==> a / d < b / d)
  {
  }

  lemma DivSelf(d: real)
    requires d != 0.0
    ensures d / d == 1.0
  {
  }
}
