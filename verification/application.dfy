/** Lifecycle events published on the application event bus. */
module Application {

  /** A tracked item began. */
  datatype ItemCreatedEvent<T> = ItemCreatedEvent(item: T)

  /** A tracked item ended. */
  datatype ItemCompletedEvent<T> = ItemCompletedEvent(item: T)
}
