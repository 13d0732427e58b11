/** The error classification shown instead of a route (src/error.rs). */
module Errors {

  /**
   * Loading: an input is still on its way. Input: the user has not finished a
   * selection. Routing: the filtered graph has no route or lacks an endpoint.
   * Critical: the data contradict themselves.
   */
  datatype ErrorCategory = Loading | Input | Routing | Critical

  datatype ErrorStatus = ErrorStatus(category: ErrorCategory, description: string)

  function LoadingError(description: string): (e: ErrorStatus)
    ensures e.category == Loading && e.description == description
  {
    ErrorStatus(Loading, description)
  }

  function InputError(description: string): (e: ErrorStatus)
    ensures e.category == Input && e.description == description
  {
    ErrorStatus(Input, description)
  }

  function RoutingError(description: string): (e: ErrorStatus)
    ensures e.category == Routing && e.description == description
  {
    ErrorStatus(Routing, description)
  }

  function CriticalError(description: string): (e: ErrorStatus)
    ensures e.category == Critical && e.description == description
  {
    ErrorStatus(Critical, description)
  }
}
