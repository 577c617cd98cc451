module Options {
  datatype Option<+T> = None | Some(value: T) {
    // `this ?? default`
    function GetOr(default: T): T {
      if Some? then value else default
    }
  }
}
