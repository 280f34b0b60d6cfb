/**
 * The fixed menu the ordering client ships with: three categories of
 * products, each with an id, a name, a unit price and a description.
 */
module Catalog {

  datatype Product = Product(id: int, nombre: string, precio: nat, descripcion: string)

  datatype Category = Desayunos | Comidas | Bebidas

  const Breakfasts: seq<Product> := [
    Product(1, "Chilaquiles", 45, "Con salsa verde o roja"),
    Product(2, "Molletes", 35, "Con frijoles y queso"),
    Product(3, "Quesadillas", 40, "De queso o guisado"),
    Product(4, "Sincronizadas", 38, "Jamón y queso")
  ]

  const Meals: seq<Product> := [
    Product(5, "Tacos de Guisado", 50, "3 tacos con guisado del día"),
    Product(6, "Torta", 45, "Variedad de ingredientes"),
    Product(7, "Hamburguesa", 55, "Con papas"),
    Product(8, "Ensalada", 48, "Fresca y saludable")
  ]

  const Drinks: seq<Product> := [
    Product(9, "Café", 20, "Americano o con leche"),
    Product(10, "Agua Fresca", 15, "Del día"),
    Product(11, "Refresco", 18, "Varios sabores"),
    Product(12, "Jugo Natural", 25, "Naranja o zanahoria")
  ]

  /** The products the menu screen lists for the selected category tab. */
  function ItemsFor(c: Category): (items: seq<Product>)
    ensures |items| == 4
    ensures forall i :: 0 <= i < |items| ==> Listed(items[i])
  {
    match c
    case Desayunos => Breakfasts
    case Comidas => Meals
    case Bebidas => Drinks
  }

  /** A product that some category tab offers, hence one "Agregar" can add. */
  predicate Listed(p: Product) {
    p in Breakfasts || p in Meals || p in Drinks
  }

  /** The listed products are exactly the products some category tab shows. */
  lemma ListedOnSomeTab(p: Product)
    ensures Listed(p) <==> exists c :: p in ItemsFor(c)
  {
    if p in Breakfasts {
      assert p in ItemsFor(Desayunos);
    } else if p in Meals {
      assert p in ItemsFor(Comidas);
    } else if p in Drinks {
      assert p in ItemsFor(Bebidas);
    }
  }

  /** Menu ids are keys: two listed products with the same id are the same product. */
  lemma ListedIdIsKey(p: Product, q: Product)
    requires Listed(p) && Listed(q) && p.id == q.id
    ensures p == q
  {
  }
}
