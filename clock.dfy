/** Points in time as the two stores keep them. */
module Clock {
  /** Milliseconds since the epoch: what `Date.now()` gives, what
      `new Date().toISOString()` stands for when a record is stamped, and
      what `new Date(iso).getTime()` reads back. */
  type Timestamp = int
}
