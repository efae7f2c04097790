/** Objects under two-part names, the shape all three in-memory stores share, and the errors they answer with. */
module Buckets {
  import opened Common

  type Buckets<V> = map<string, map<string, V>>

  datatype StoreError =
    | BucketAlreadyExists(id: string)
    | BucketDoesNotExist(id: string)
    | ObjectAlreadyExists(key: string)
    | ObjectDoesNotExist(key: string)
    | ThereIsNoBucket
    | ReaderFailed
    | OsFailed
    | ForeignFiles

  predicate Has<V>(m: Buckets<V>, b: string, k: string) {
    b in m && k in m[b]
  }

  function Put<V>(m: Buckets<V>, b: string, k: string, v: V): Buckets<V>
    requires b in m
  {
    m[b := m[b][k := v]]
  }

  function Drop<V>(m: Buckets<V>, b: string, k: string): Buckets<V>
    requires b in m
  {
    m[b := m[b] - {k}]
  }

  /** Putting and dropping change one entry, and no bucket comes or goes. */
  lemma OneEntryChanges<V>(m: Buckets<V>, b: string, k: string, v: V, x: string, y: string)
    requires b in m
    ensures Put(m, b, k, v).Keys == Drop(m, b, k).Keys == m.Keys
    ensures Has(Put(m, b, k, v), b, k) && Put(m, b, k, v)[b][k] == v && !Has(Drop(m, b, k), b, k)
    ensures x != b || y != k ==>
      && Has(Put(m, b, k, v), x, y) == Has(m, x, y) == Has(Drop(m, b, k), x, y)
      && (Has(m, x, y) ==> Put(m, b, k, v)[x][y] == m[x][y] == Drop(m, b, k)[x][y])
  {
  }

  datatype Metadata = Metadata(length: int, filename: string)

  datatype EncryptionKey = EncryptionKey(key: seq<byte>)
}
