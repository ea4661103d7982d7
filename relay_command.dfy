/**
 * `RelayCommand` and `RelayCommand<T>`: `ICommand`s that always allow
 * execution and hand the call on to a delegate. The delegate is not part of
 * this model; each command records, in order, the calls it made to it.
 */
module Commands {
  import opened Text
  import WindowsApps

  /** A command parameter, as `parameter is T` sees it. */
  datatype Param<T> = Null | OfType(value: T) | OtherType

  /** What the typed command passes to its delegate: the parameter, or `default(T)`. */
  datatype Argument<T> = Given(value: T) | DefaultValue

  /**
   * The typed command's dispatch: a `T` is passed on; null is passed on as
   * `default(T)` only when that default is itself null (a reference or
   * nullable `T`); anything else is dropped without a call.
   */
  function Dispatch<T>(parameter: Param<T>, defaultIsNull: bool): (call: Option<Argument<T>>)
    ensures (call.Some? && call.value.Given?) <==> parameter.OfType?
    ensures call.Some? && call.value.Given? ==> call.value.value == parameter.value
    ensures call == Some(DefaultValue) <==> parameter.Null? && defaultIsNull
    ensures call.None? <==> parameter.OtherType? || (parameter.Null? && !defaultIsNull)
  {
    match parameter
    case OfType(v) => Some(Given(v))
    case Null => if defaultIsNull then Some(DefaultValue) else None
    case OtherType => None
  }

  /** A command over a value type (default not null) never passes on a null. */
  lemma NullDroppedForValueTypes<T>()
    ensures Dispatch<T>(Null, false) == None
    ensures Dispatch<T>(OtherType, true) == None
  {
  }

  /**
   * The dashboard's launch command is typed by the reference type `AppEntry`:
   * a null parameter reaches `LaunchApp` as a null entry, which launches
   * nothing, and an entry reaches it as itself.
   */
  lemma LaunchCommandGuarded(app: WindowsApps.AppEntry)
    ensures var call := Dispatch<WindowsApps.AppEntry>(Null, true);
      call == Some(DefaultValue) && WindowsApps.LaunchTarget(None) == None
    ensures Dispatch(OfType(app), true) == Some(Given(app))
    ensures app.executablePath.Some? && app.executablePath.value != "" ==> WindowsApps.LaunchTarget(Some(app)) == app.executablePath
  {
  }

  /** `RelayCommand`: the parameter is ignored and the action runs every time. */
  class RelayCommand {
    /** How many times the action has run. */
    var executions: nat

    constructor ()
      ensures executions == 0
    {
      executions := 0;
    }

    function CanExecute<P>(parameter: P): (allowed: bool)
      ensures allowed
    {
      true
    }

    method Execute<P>(parameter: P)
      modifies this
      ensures executions == old(executions) + 1
    {
      executions := executions + 1;
    }
  }

  /** `RelayCommand<T>`; `defaultIsNull` says whether `default(T) == null`. */
  class TypedRelayCommand<T> {
    const defaultIsNull: bool
    /** The arguments the action was called with, in order. */
    var calls: seq<Argument<T>>

    constructor (defaultIsNull: bool)
      ensures this.defaultIsNull == defaultIsNull && calls == []
    {
      this.defaultIsNull := defaultIsNull;
      calls := [];
    }

    function CanExecute(parameter: Param<T>): (allowed: bool)
      ensures allowed
    {
      true
    }

    method Execute(parameter: Param<T>)
      modifies this
      ensures var call := Dispatch(parameter, defaultIsNull);
        calls == old(calls) + (if call.Some? then [call.value] else [])
    {
      var call := Dispatch(parameter, defaultIsNull);
      if call.Some? {
        calls := calls + [call.value];
      }
    }
  }
}
