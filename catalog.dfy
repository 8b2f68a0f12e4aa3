/** The records of the car catalog and the outcomes of a request. The dataset
    is loaded once and never written, so every record is a value and the
    dataset is a value handed to each handler. Go's 64-bit `int` fields are
    unbounded integers here. */
module Catalog {

  datatype Specification = Specification(
    engine: string,
    horsepower: int,
    transmission: string,
    drivetrain: string)

  datatype CarModel = CarModel(
    id: int,
    name: string,
    manufacturerId: int,
    categoryId: int,
    year: int,
    specifications: Specification,
    image: string)

  datatype Manufacturer = Manufacturer(
    id: int,
    name: string,
    country: string,
    foundingYear: int)

  datatype Category = Category(id: int, name: string)

  /** The whole dataset: three ordered collections, in the order of the
      loaded document. */
  datatype Data = Data(
    manufacturers: seq<Manufacturer>,
    categories: seq<Category>,
    carModels: seq<CarModel>)

  /** What a handler writes back: a JSON body (200) or one of the error
      statuses 400, 404 and 405. */
  datatype Response<T> = Ok(body: T) | BadRequest | NotFound | MethodNotAllowed

  /** The id of each kind of record, as a function value for the generic
      lookup. */
  function ModelId(m: CarModel): int { m.id }
  function ManufacturerId(m: Manufacturer): int { m.id }
  function CategoryId(c: Category): int { c.id }
}
