/** The catalogue product shape that the result and wishlist views display and reference by code. */
module Products {

  datatype Price = Price(formattedValue: string, currencyIso: string)

  datatype Image = Image(url: string)

  datatype Product = Product(code: string, name: string, price: Price, images: seq<Image>)
}
