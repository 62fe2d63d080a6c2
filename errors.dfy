/**
 * The exceptions the services throw, as values. Each constructor is one
 * `throw` site of the source; `Kind` is the HTTP exception class it uses and
 * `Message` the text it carries.
 */
module Errors {
  import Text

  datatype Kind = BadRequest | NotFound | Unauthorized | InternalError

  datatype Error =
    | ProductoNoEncontrado(id: int)
    | StockInsuficiente(nombre: string)
    | StockInsuficienteVenta(nombre: string, disponible: int)
    | VentaNoEncontrada(id: int)
    | BoletaNoEncontrada(id: int)
    | BoletaNumeroNoEncontrada(numero: string)
    | UsuarioNoEncontrado(id: int)
    | EmailYaExiste
    | EmailInvalido
    | ContrasenaInvalida
    | EmailEnUso
    | UltimoAdministrador
    | TokenNoProporcionado
    | TokenInvalido
      // a UNIQUE constraint of the database rejected a write
    | UniqueViolation(column: string)

  function KindOf(e: Error): Kind {
    match e
    case ProductoNoEncontrado(_) => NotFound
    case StockInsuficiente(_) => InternalError      // a plain Error, not an HttpException
    case StockInsuficienteVenta(_, _) => BadRequest
    case VentaNoEncontrada(_) => NotFound
    case BoletaNoEncontrada(_) => NotFound
    case BoletaNumeroNoEncontrada(_) => NotFound
    case UsuarioNoEncontrado(_) => NotFound
    case EmailYaExiste => BadRequest
    case EmailInvalido => Unauthorized
    case ContrasenaInvalida => Unauthorized
    case EmailEnUso => BadRequest
    case UltimoAdministrador => BadRequest
    case TokenNoProporcionado => Unauthorized
    case TokenInvalido => Unauthorized
    case UniqueViolation(_) => InternalError
  }

  function Message(e: Error): string {
    match e
    case ProductoNoEncontrado(id) => "Producto con ID " + Text.IntToString(id) + " no encontrado"
    case StockInsuficiente(nombre) => "Stock insuficiente para " + nombre
    case StockInsuficienteVenta(nombre, disponible) =>
      "Stock insuficiente para " + nombre + ". Disponible: " + Text.IntToString(disponible)
    case VentaNoEncontrada(id) => "Venta con ID " + Text.IntToString(id) + " no encontrada"
    case BoletaNoEncontrada(id) => "Boleta con ID " + Text.IntToString(id) + " no encontrada"
    case BoletaNumeroNoEncontrada(numero) => "Boleta " + numero + " no encontrada"
    case UsuarioNoEncontrado(id) => "Usuario con ID " + Text.IntToString(id) + " no encontrado"
    case EmailYaExiste => "El email ya existe"
    case EmailInvalido => "Email inválido"
    case ContrasenaInvalida => "Contraseña inválida"
    case EmailEnUso => "El email ya está en uso"
    case UltimoAdministrador => "No puedes eliminar el último administrador"
    case TokenNoProporcionado => "Token no proporcionado"
    case TokenInvalido => "Token inválido o expirado"
    case UniqueViolation(column) => "unique constraint violated on " + column
  }

  /** The sale's stock message extends `actualizarStock`'s with the available quantity. */
  lemma MensajeStockVenta(nombre: string, disponible: int)
    ensures Message(StockInsuficienteVenta(nombre, disponible)) ==
            Message(StockInsuficiente(nombre)) + ". Disponible: " + Text.IntToString(disponible)
    ensures KindOf(StockInsuficienteVenta(nombre, disponible)) == BadRequest
    ensures KindOf(StockInsuficiente(nombre)) == InternalError
  {
  }

  /** The outcome of a service call: its value, or the exception it throws. */
  datatype Result<+T> = Ok(value: T) | Err(error: Error) {
    predicate IsFailure() { Err? }

    function PropagateFailure<U>(): Result<U>
      requires Err?
    {
      Err(error)
    }

    function Extract(): T
      requires Ok?
    {
      value
    }
  }
}
