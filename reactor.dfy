/**
 The three ways a Reactor `Mono` can complete, and the operators the invoice
 report pipeline chains together. A `Mono` either emits one value, completes
 empty, or terminates with an error; operators applied to an empty or failed
 `Mono` pass that outcome on without calling their argument.
 */
module Reactor {

  datatype Mono<T, E> = Just(value: T) | Empty | Error(error: E) {

    /** `flatMap`: continue with another asynchronous step on a value. */
    function FlatMap<U>(f: T -> Mono<U, E>): Mono<U, E> {
      match this
      case Just(v) => f(v)
      case Empty => Empty
      case Error(e) => Error(e)
    }

    /** `map`: transform the emitted value, if there is one. */
    function Map<U>(f: T -> U): Mono<U, E> {
      match this
      case Just(v) => Just(f(v))
      case Empty => Empty
      case Error(e) => Error(e)
    }

    /** `onErrorResume(e -> Mono.empty())`: an error becomes an empty completion. */
    function OnErrorResumeEmpty(): Mono<T, E> {
      match this
      case Error(_) => Empty
      case _ => this
    }

    /** Re-types a `Mono` that did not emit, keeping how it completed. */
    function Propagate<U>(): Mono<U, E>
      requires !Just?
    {
      match this
      case Empty => Empty
      case Error(e) => Error(e)
    }
  }
}
