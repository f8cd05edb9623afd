/** The record the service stores and the already-parsed inputs of its handlers. */
module Catalog {

  /** One product as the handlers read and write it. `preco` and `avaliacao`
      are JavaScript numbers in the service; here they are exact reals. */
  datatype Product = Product(
    id: int,
    nome: string,
    marca: string,
    preco: real,
    quantidade: int,
    categoria: string,
    avaliacao: real)

  /** The six fields a full replacement (PUT) takes from the request body. */
  datatype Body = Body(
    nome: string,
    marca: string,
    preco: real,
    quantidade: int,
    categoria: string,
    avaliacao: real)

  /** What `parseInt` or `parseFloat` makes of a path or query parameter:
      a number, or NaN when the text is not numeric. */
  datatype Parsed<T> = NaN | Num(value: T)

  /** The strict test `prod.id === parseInt(id)`: NaN is equal to nothing. */
  predicate HasId(p: Product, key: Parsed<int>)
  {
    key == Num(p.id)
  }

  /** The object literal a replacement writes: the path id and exactly the
      six body fields, so no other field of the old record survives. */
  function FromBody(id: int, b: Body): Product
  {
    Product(id, b.nome, b.marca, b.preco, b.quantidade, b.categoria, b.avaliacao)
  }
}
