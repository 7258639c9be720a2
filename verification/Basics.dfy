// Vocabulary shared by every module: optional values.
module Basics {

  datatype Option<+T> = None | Some(value: T)

}
