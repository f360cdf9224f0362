/** The provider-independent record of the libdns interfaces that both adapters produce or consume. */
module Libdns {

  /**
   * libdns.Record. `ttl` is a Go time.Duration (nanoseconds); `priority`
   * is an int. Zero means "unset" for both.
   */
  datatype Record = Record(
    id: string,
    recordType: string,
    name: string,
    value: string,
    ttl: int,
    priority: int)
}
