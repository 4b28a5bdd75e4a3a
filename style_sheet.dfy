/** The descriptor factory of src/styleSheet.js: a named record holding the
    rule callback and an options bag, and the call that delegates to the
    callback. `A` is the type of the callback's arguments (a theme, say) and
    `R` the rules object it returns. */
module StyleSheetFactory {
  import opened Js

  /** The second argument of `createStyleSheet`: meant to be a function, but
      any value may be passed (the server-rendering tests pass a plain rule
      object). */
  datatype Callback<-A, R> = Callable(f: seq<A> -> R) | NotCallable(value: R)

  datatype StyleSheet<-A, R> = StyleSheet(name: string, callback: Callback<A, R>, options: Options)

  /** `createStyleSheet(name, callback, options = {})`; `options` is None when
      the argument is left out (or undefined). */
  function CreateStyleSheet<A, R>(name: string, callback: Callback<A, R>, options: Option<Options>)
    : (s: StyleSheet<A, R>)
    ensures s.name == name
    ensures s.callback == callback
    ensures options.Some? ==> s.options == options.value
    ensures options.None? ==> s.options == map[]
  {
    StyleSheet(name, callback, if options.Some? then options.value else map[])
  }

  /** `resolveStyles(styleSheet, ...args)`: the callback's result, or the
      TypeError of calling a value that is not a function. */
  function ResolveStyles<A, R>(s: StyleSheet<A, R>, args: seq<A>): (r: Result<R>)
    ensures s.callback.Callable? <==> r.Ok?
    ensures r.Ok? ==> r.value == s.callback.f(args)
  {
    match s.callback
    case Callable(f) => Ok(f(args))
    case NotCallable(_) => Err(TypeError("styleSheet.callback is not a function"))
  }

  /** Resolving the styles of a freshly created descriptor calls exactly the
      callback it was given, with the same arguments. */
  lemma ResolveCreated<A, R>(name: string, f: seq<A> -> R, options: Option<Options>, args: seq<A>)
    ensures ResolveStyles(CreateStyleSheet(name, Callable(f), options), args) == Ok(f(args))
  {
  }
}
