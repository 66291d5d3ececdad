/** The conventional Some/None datatype, standing in for JavaScript's
    `undefined` and `NaN` results. */
module Optional {

  datatype Option<+T> = None | Some(value: T)

}
