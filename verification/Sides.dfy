/** The two sides of a binary tree. */
module Sides {
  datatype Side = Left | Right {
    function Other(): Side { if Left? then Right else Left }
  }
}
