/**
 * The message structs the application publishes on the bus, as type tags.
 * Their declarations (namespace `TMG.Survival.Gameplay.Messages`) are not
 * part of this model; only their identity matters, so each is a distinct
 * number.
 */
module GameMessages {
  import opened PubSub

  const QuitApplicationMessage: TypeTag := 0
  const LoadMenuMessage: TypeTag := 1
  const LoadGameplayMessage: TypeTag := 2
}
