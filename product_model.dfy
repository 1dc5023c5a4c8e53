/** The Product schema: required fields, lower bounds, the category enum,
    the name setter that trims, and the defaults. */
module ProductModel {
  import opened Common
  import opened Text

  datatype Category = Shampoo | Conditioner | Styling | Treatment | Other

  datatype Product = Product(
    name: string,
    description: string,
    price: int,
    image: string,
    category: Category,
    stock: int,
    isActive: bool)

  const DefaultImage: string := "no-image.jpg"

  /** What the schema lets a product be saved with: a non-empty trimmed name,
      a non-empty description, price and stock not below 0.  The category is
      one of the enum's values by its type. */
  predicate ValidProduct(p: Product) {
    && p.name != "" && IsTrimmed(p.name)
    && p.description != ""
    && p.price >= 0
    && p.stock >= 0
  }

  /** Creating a product document: the name goes through the trimming
      setter, a left-out image and isActive take their defaults, and the
      result is validated. */
  function NewProduct(name: string, description: string, price: int, image: Option<string>,
                      category: Choice<Category>, stock: int): (r: Result<Product>)
    ensures r.Ok? <==> Trim(name) != "" && description != "" && price >= 0 && stock >= 0
                       && category.Chosen?
    ensures r.Err? ==> r.error == SchemaViolation
    ensures r.Ok? ==> ValidProduct(r.value)
    ensures r.Ok? ==> r.value.name == Trim(name) && r.value.price == price && r.value.stock == stock
                      && r.value.category == category.value && r.value.isActive
                      && r.value.image == (if image.Some? then image.value else DefaultImage)
                      && r.value.description == description
  {
    if !category.Chosen? then Err(SchemaViolation)
    else
      var p := Product(Trim(name), description, price,
                       if image.Some? then image.value else DefaultImage,
                       category.value, stock, true);
      if ValidProduct(p) then Ok(p) else Err(SchemaViolation)
  }

  /** `product.save()`: the schema's validators decide. */
  function SaveProduct(p: Product): (r: Result<Product>)
    ensures r.Ok? <==> ValidProduct(p)
    ensures r.Ok? ==> r.value == p
    ensures r.Err? ==> r.error == SchemaViolation
  {
    if ValidProduct(p) then Ok(p) else Err(SchemaViolation)
  }
}
