/** The optional value used where the rule returns `Optional<Expression>`. */
module Wrappers {

  datatype Option<+T> = None | Some(value: T)
}
