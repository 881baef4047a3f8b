/** Document identifiers: the store's ObjectIds, modelled as naturals handed out by a counter. */
module Ids {
  type Id = nat
}
