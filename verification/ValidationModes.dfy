/** The modes of validations, correction policy and convergence guard. */
module ValidationModes {
  datatype Mode = Off | Warn | Enforce
}
