/** The model describes two programs side by side: the code as written, and the code with the
    defects listed under Findings in the README corrected. Every guard and handler that one of
    those defects touches takes the variant as a parameter; everything else is the same in both. */
module Variants {

  datatype Variant = AsWritten | Corrected
}
