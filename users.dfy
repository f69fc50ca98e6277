/** Discord user ids, shared by the table and the channels. */
module Users {
  /** `interaction.user.id`, `bot.user`, `msg.author`: a user is identified by its id. */
  type UserId = int
}
