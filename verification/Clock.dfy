/** Start times of threads, and the order in which the library compares them. */
module Clock {

  /** struct timeval; timercmp compares it lexicographically. */
  datatype TimeVal = TimeVal(sec: int, usec: int)

  predicate Before(a: TimeVal, b: TimeVal) {
    if a.sec == b.sec then a.usec < b.usec else a.sec < b.sec
  }

  predicate AtMost(a: TimeVal, b: TimeVal) {
    !Before(b, a)
  }

  /** A time stamp as gettimeofday gives it. */
  predicate Proper(t: TimeVal) {
    0 <= t.usec < 1_000_000
  }

  function Micros(t: TimeVal): int {
    t.sec * 1_000_000 + t.usec
  }

  /** On proper time stamps the order is that of elapsed time. */
  lemma BeforeIsEarlier(a: TimeVal, b: TimeVal)
    requires Proper(a) && Proper(b)
    ensures Before(a, b) <==> Micros(a) < Micros(b)
    ensures AtMost(a, b) <==> Micros(a) <= Micros(b)
  {
  }

  /** What the selection reads of a copied tcb. */
  datatype Record = Record(tid: nat, start: TimeVal)
}
