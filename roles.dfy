/** The two kinds of visitor the greeting flow distinguishes ("friend" | "family"). */
module Roles {

  datatype Role = Friend | Family
}
