/** The values the encoding layer passes around. */
module Embeddings {

  /** A text, identified by its exact content. */
  type Text = string

  /** An embedding. Its numbers are never inspected: no arithmetic is done on vectors. */
  type Vector = seq<real>
}
