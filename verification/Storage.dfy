/** Memory of the queues. */
module Storage {

  /** A slot of an array: raw memory, or a constructed element. */
  datatype Cell<T> = Raw | Val(value: T)
}
